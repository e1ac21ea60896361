/** Building a webhook body from a body that was built says the same again. */
module WebhookBodyProofs {
  import opened Text
  import opened JsonModel
  import opened WebhookBody

  lemma {:induction false} AtContent(body: seq<Prop>, key: string)
    ensures At(body, key) == if key in Content(body) then Some(Content(body)[key]) else None
  {
    if body != [] {
      AtContent(body[1..], key);
    }
  }

  lemma SameAt(left: seq<Prop>, right: seq<Prop>, key: string)
    requires Content(left) == Content(right)
    ensures At(left, key) == At(right, key)
  {
    AtContent(left, key);
    AtContent(right, key);
  }

  lemma SameKeys(left: seq<Prop>, right: seq<Prop>)
    requires forall key :: At(left, key) == At(right, key)
    ensures Content(left) == Content(right)
  {
    forall key
      ensures key in Content(left) <==> key in Content(right)
      ensures key in Content(left) ==> Content(left)[key] == Content(right)[key]
    {
      assert At(left, key) == At(right, key);
      AtContent(left, key);
      AtContent(right, key);
    }
  }

  // ---------------------------------------------------------------- one key at a time

  lemma {:induction false} AtSet(body: seq<Prop>, name: string, value: Json, key: string)
    ensures At(Set(body, name, value), key) == if key == name then Some(value) else At(body, key)
  {
    if body == [] {
      assert [Prop(name, value)][1..] == [];
    } else if body[0].name == name {
      assert ([Prop(name, value)] + body[1..])[1..] == body[1..];
    } else {
      AtSet(body[1..], name, value, key);
      assert ([body[0]] + Set(body[1..], name, value))[1..] == Set(body[1..], name, value);
    }
  }

  lemma {:induction false} AtWithoutAliases(
    canonical: Canonical, requirement: Requirement, body: seq<Prop>, key: string)
    ensures At(WithoutAliases(canonical, requirement, body), key) ==
            if IsAlias(canonical, requirement, key) then None else At(body, key)
  {
    hide IsAlias;
    if body != [] {
      AtWithoutAliases(canonical, requirement, body[1..], key);
      var rest := WithoutAliases(canonical, requirement, body[1..]);
      assert ([body[0]] + rest)[1..] == rest && [] + rest == rest;
    }
  }

  function Mapped(value: Option<Json>, prefix: string, className: string): Option<Json> {
    if value.None? then None else Some(Normal(value.value, prefix, className))
  }

  lemma {:induction false} AtNormal(body: seq<Prop>, prefix: string, className: string, key: string)
    ensures At(NormalProps(body, prefix, className), key) == Mapped(At(body, key), prefix, className)
  {
    hide Normal;
    if body != [] {
      AtNormal(body[1..], prefix, className, key);
    }
  }

  /** The last value given to a key. */
  function LastOf(props: seq<Prop>, key: string): Option<Json> {
    if props == [] then None
    else if props[|props| - 1].name == key then Some(props[|props| - 1].value)
    else LastOf(props[..|props| - 1], key)
  }

  lemma {:induction false} AtSetAll(body: seq<Prop>, props: seq<Prop>, key: string)
    ensures At(SetAll(body, props), key) == OrElse(LastOf(props, key), At(body, key))
  {
    hide Set;
    if props != [] {
      AtSetAll(body, props[..|props| - 1], key);
      AtSet(SetAll(body, props[..|props| - 1]), props[|props| - 1].name, props[|props| - 1].value, key);
    }
  }

  /** What the last requirement concerned with a key does to it: nothing when there is none. */
  function LastTouch(
    canonical: Canonical, prefix: string, requirements: seq<Requirement>, key: string): Option<Option<Json>> {
    if requirements == [] then None
    else
      var last := requirements[|requirements| - 1];
      if Complete(last) && key == last.payloadKey then
        Some(Some(Str(CmdbuildPlaceholder(prefix, last.placeholderAttribute))))
      else if Complete(last) && IsAlias(canonical, last, key) then Some(None)
      else LastTouch(canonical, prefix, requirements[..|requirements| - 1], key)
  }

  lemma {:induction false} AtRequirements(
    canonical: Canonical, prefix: string, requirements: seq<Requirement>, body: seq<Prop>, key: string)
    ensures At(WithRequirements(canonical, prefix, requirements, body), key) ==
            OrElse(LastTouch(canonical, prefix, requirements, key), Some(At(body, key))).value
  {
    hide IsAlias, Set, WithoutAliases, CmdbuildPlaceholder;
    if requirements != [] {
      var front, last := requirements[..|requirements| - 1], requirements[|requirements| - 1];
      var before := WithRequirements(canonical, prefix, front, body);
      AtRequirements(canonical, prefix, front, body, key);
      AtWithoutAliases(canonical, last, before, key);
      AtSet(WithoutAliases(canonical, last, before), last.payloadKey,
            Str(CmdbuildPlaceholder(prefix, last.placeholderAttribute)), key);
    }
  }

  /** A key of a body that is built: by the last requirement concerned with it, else fixed, else kept. */
  lemma AtBody(canonical: Canonical, identifier: string, slot: Slot, prefix: string, base: seq<Prop>, key: string)
    ensures At(BodyFor(canonical, identifier, slot, prefix, base), key) ==
            OrElse(LastTouch(canonical, prefix, slot.requirements, key),
                   Some(OrElse(LastOf(Fixed(slot, identifier), key),
                               Mapped(At(base, key), prefix, slot.className)))).value
  {
    hide Fixed, NormalProps, SetAll, WithRequirements;
    var normal := NormalProps(base, prefix, slot.className);
    AtNormal(base, prefix, slot.className, key);
    AtSetAll(normal, Fixed(slot, identifier), key);
    AtRequirements(canonical, prefix, slot.requirements, SetAll(normal, Fixed(slot, identifier)), key);
  }

  /** Every key once, as in any object. */
  ghost predicate Unique(body: seq<Prop>) {
    body == [] || (At(body[1..], body[0].name).None? && Unique(body[1..]))
  }

  lemma {:induction false} SetUnique(body: seq<Prop>, name: string, value: Json)
    requires Unique(body)
    ensures Unique(Set(body, name, value))
  {
    if body == [] {
      assert [Prop(name, value)][1..] == [];
    } else if body[0].name == name {
      assert ([Prop(name, value)] + body[1..])[1..] == body[1..];
    } else {
      SetUnique(body[1..], name, value);
      AtSet(body[1..], name, value, body[0].name);
      assert ([body[0]] + Set(body[1..], name, value))[1..] == Set(body[1..], name, value);
    }
  }

  lemma {:induction false} WithoutAliasesUnique(canonical: Canonical, requirement: Requirement, body: seq<Prop>)
    requires Unique(body)
    ensures Unique(WithoutAliases(canonical, requirement, body))
  {
    hide IsAlias;
    if body != [] {
      WithoutAliasesUnique(canonical, requirement, body[1..]);
      AtWithoutAliases(canonical, requirement, body[1..], body[0].name);
      var rest := WithoutAliases(canonical, requirement, body[1..]);
      assert ([body[0]] + rest)[1..] == rest && [] + rest == rest;
    }
  }

  lemma {:induction false} NormalUnique(body: seq<Prop>, prefix: string, className: string)
    requires Unique(body)
    ensures Unique(NormalProps(body, prefix, className))
  {
    hide Normal;
    if body != [] {
      NormalUnique(body[1..], prefix, className);
      AtNormal(body[1..], prefix, className, body[0].name);
      assert NormalProps(body, prefix, className)[1..] == NormalProps(body[1..], prefix, className);
    }
  }

  lemma {:induction false} SetAllUnique(body: seq<Prop>, props: seq<Prop>)
    requires Unique(body)
    ensures Unique(SetAll(body, props))
  {
    hide Unique, Set;
    if props != [] {
      SetAllUnique(body, props[..|props| - 1]);
      SetUnique(SetAll(body, props[..|props| - 1]), props[|props| - 1].name, props[|props| - 1].value);
    }
  }

  lemma {:induction false} WithRequirementsUnique(
    canonical: Canonical, prefix: string, requirements: seq<Requirement>, body: seq<Prop>)
    requires Unique(body)
    ensures Unique(WithRequirements(canonical, prefix, requirements, body))
  {
    hide Unique, Set, WithoutAliases, CmdbuildPlaceholder, Complete;
    if requirements != [] {
      var front, last := requirements[..|requirements| - 1], requirements[|requirements| - 1];
      var before := WithRequirements(canonical, prefix, front, body);
      WithRequirementsUnique(canonical, prefix, front, body);
      WithoutAliasesUnique(canonical, last, before);
      SetUnique(WithoutAliases(canonical, last, before), last.payloadKey,
                Str(CmdbuildPlaceholder(prefix, last.placeholderAttribute)));
    }
  }

  lemma BodyUnique(canonical: Canonical, identifier: string, slot: Slot, prefix: string, base: seq<Prop>)
    requires Unique(base)
    ensures Unique(BodyFor(canonical, identifier, slot, prefix, base))
  {
    hide Unique, NormalProps, SetAll, Fixed, WithRequirements;
    NormalUnique(base, prefix, slot.className);
    SetAllUnique(NormalProps(base, prefix, slot.className), Fixed(slot, identifier));
    WithRequirementsUnique(canonical, prefix, slot.requirements,
                           SetAll(NormalProps(base, prefix, slot.className), Fixed(slot, identifier)));
  }

  // ---------------------------------------------------------------- placeholders settle

  lemma {:induction false} NormalTwice(value: Json, prefix: string, next: string, className: string)
    requires WellFormed(prefix) && FitsClass(prefix, className)
    ensures Normal(Normal(value, prefix, className), next, className) == Normal(value, prefix, className)
    decreases value
  {
    hide FitsClass, Placeholder, CmdbuildPlaceholder;
    match value
    case Str(text) =>
      if Placeholder(text).Some? {
        PlaceholderParses(prefix, Placeholder(text).value.1);
        ParsedPrefix(text);
      }
    case Arr(items) => NormalItemsTwice(items, prefix, next, className);
    case Obj(props) => NormalPropsTwice(props, prefix, next, className);
    case _ =>
  }

  lemma {:induction false} NormalItemsTwice(items: seq<Json>, prefix: string, next: string, className: string)
    requires WellFormed(prefix) && FitsClass(prefix, className)
    ensures NormalItems(NormalItems(items, prefix, className), next, className) == NormalItems(items, prefix, className)
    decreases items
  {
    hide FitsClass, Placeholder, CmdbuildPlaceholder, Normal;
    if items != [] {
      NormalTwice(items[0], prefix, next, className);
      NormalItemsTwice(items[1..], prefix, next, className);
    }
  }

  lemma {:induction false} NormalPropsTwice(props: seq<Prop>, prefix: string, next: string, className: string)
    requires WellFormed(prefix) && FitsClass(prefix, className)
    ensures NormalProps(NormalProps(props, prefix, className), next, className) == NormalProps(props, prefix, className)
    decreases props
  {
    hide FitsClass, Placeholder, CmdbuildPlaceholder, Normal;
    if props != [] {
      NormalTwice(props[0].value, prefix, next, className);
      NormalPropsTwice(props[1..], prefix, next, className);
    }
  }

  /** The prefixes of all placeholders of a value. */
  ghost function Prefixes(value: Json): set<string> {
    match value
    case Str(text) => if Placeholder(text).Some? then {Placeholder(text).value.0} else {}
    case Arr(items) => PrefixesOfItems(items)
    case Obj(props) => PrefixesOfProps(props)
    case _ => {}
  }

  ghost function PrefixesOfItems(items: seq<Json>): set<string> {
    if items == [] then {} else Prefixes(items[0]) + PrefixesOfItems(items[1..])
  }

  ghost function PrefixesOfProps(props: seq<Prop>): set<string> {
    if props == [] then {} else Prefixes(props[0].value) + PrefixesOfProps(props[1..])
  }

  lemma {:induction false} FirstPrefixShape(value: Json)
    ensures FirstPrefix(value).None? <==> Prefixes(value) == {}
    ensures FirstPrefix(value).Some? ==>
              FirstPrefix(value).value in Prefixes(value) && WellFormed(FirstPrefix(value).value)
    decreases value
  {
    hide Placeholder, WellFormed;
    match value
    case Str(text) =>
      if Placeholder(text).Some? {
        ParsedPrefix(text);
        assert Placeholder(text).value.0 in Prefixes(value);
      }
    case Arr(items) => FirstOfItemsShape(items);
    case Obj(props) => FirstOfPropsShape(props);
    case _ =>
  }

  lemma {:induction false} FirstOfItemsShape(items: seq<Json>)
    ensures FirstOfItems(items).None? <==> PrefixesOfItems(items) == {}
    ensures FirstOfItems(items).Some? ==>
              FirstOfItems(items).value in PrefixesOfItems(items) && WellFormed(FirstOfItems(items).value)
    decreases items
  {
    hide Prefixes, FirstPrefix, WellFormed;
    if items != [] {
      FirstPrefixShape(items[0]);
      FirstOfItemsShape(items[1..]);
    }
  }

  lemma {:induction false} FirstOfPropsShape(props: seq<Prop>)
    ensures FirstOfProps(props).None? <==> PrefixesOfProps(props) == {}
    ensures FirstOfProps(props).Some? ==>
              FirstOfProps(props).value in PrefixesOfProps(props) && WellFormed(FirstOfProps(props).value)
    decreases props
  {
    hide Prefixes, FirstPrefix, WellFormed;
    if props != [] {
      FirstPrefixShape(props[0].value);
      FirstOfPropsShape(props[1..]);
    }
  }

  /** The only prefix that stays is the given one. */
  ghost predicate Replaces(prefixes: set<string>, prefix: string, className: string) {
    forall q :: q in prefixes ==> q == prefix || !FitsClass(q, className)
  }

  lemma {:induction false} NormalPrefixes(value: Json, prefix: string, className: string)
    requires WellFormed(prefix) && Replaces(Prefixes(value), prefix, className)
    ensures Prefixes(Normal(value, prefix, className)) <= {prefix}
    decreases value
  {
    hide FitsClass, Placeholder, CmdbuildPlaceholder;
    match value
    case Str(text) =>
      if Placeholder(text).Some? {
        assert Placeholder(text).value.0 in Prefixes(value);
        PlaceholderParses(prefix, Placeholder(text).value.1);
      }
    case Arr(items) => NormalPrefixesOfItems(items, prefix, className);
    case Obj(props) => NormalPrefixesOfProps(props, prefix, className);
    case _ =>
  }

  lemma {:induction false} NormalPrefixesOfItems(items: seq<Json>, prefix: string, className: string)
    requires WellFormed(prefix) && Replaces(PrefixesOfItems(items), prefix, className)
    ensures PrefixesOfItems(NormalItems(items, prefix, className)) <= {prefix}
    decreases items
  {
    hide FitsClass, Prefixes, Normal;
    if items != [] {
      NormalPrefixes(items[0], prefix, className);
      NormalPrefixesOfItems(items[1..], prefix, className);
      assert NormalItems(items, prefix, className)[1..] == NormalItems(items[1..], prefix, className);
    }
  }

  lemma {:induction false} NormalPrefixesOfProps(props: seq<Prop>, prefix: string, className: string)
    requires WellFormed(prefix) && Replaces(PrefixesOfProps(props), prefix, className)
    ensures PrefixesOfProps(NormalProps(props, prefix, className)) <= {prefix}
    decreases props
  {
    hide FitsClass, Prefixes, Normal;
    if props != [] {
      NormalPrefixes(props[0].value, prefix, className);
      NormalPrefixesOfProps(props[1..], prefix, className);
      assert NormalProps(props, prefix, className)[1..] == NormalProps(props[1..], prefix, className);
    }
  }

  lemma {:induction false} PrefixesAt(body: seq<Prop>, key: string)
    requires At(body, key).Some?
    ensures Prefixes(At(body, key).value) <= PrefixesOfProps(body)
  {
    hide Prefixes;
    if body[0].name != key {
      PrefixesAt(body[1..], key);
    }
  }

  lemma {:induction false} AtDistinct(body: seq<Prop>, i: nat)
    requires Unique(body) && i < |body|
    ensures At(body, body[i].name) == Some(body[i].value)
  {
    if i > 0 {
      AtDistinct(body[1..], i - 1);
    }
  }

  lemma {:induction false} PrefixesWithin(body: seq<Prop>, bound: set<string>)
    requires forall i :: 0 <= i < |body| ==> Prefixes(body[i].value) <= bound
    ensures PrefixesOfProps(body) <= bound
  {
    hide Prefixes;
    if body != [] {
      PrefixesWithin(body[1..], bound);
    }
  }

  // ---------------------------------------------------------------- building again

  /** All placeholders of the body have one prefix. */
  ghost predicate OnePrefix(body: seq<Prop>) {
    forall p, q :: p in PrefixesOfProps(body) && q in PrefixesOfProps(body) ==> p == q
  }

  predicate IsPlain(text: string) {
    Placeholder(text).None?
  }

  /** No fixed text of the slot looks like a placeholder, and no attribute has a closing brace. */
  ghost predicate PlainSlot(slot: Slot, identifier: string) {
    && IsPlain(slot.className) && IsPlain(slot.eventType) && IsPlain(slot.cmdbuildEvent) && IsPlain(identifier)
    && forall r :: r in slot.requirements ==> '}' !in r.placeholderAttribute
  }

  predicate SomeComplete(requirements: seq<Requirement>) {
    exists r :: r in requirements && Complete(r)
  }

  lemma CardFits(className: string)
    ensures WellFormed("card") && FitsClass("card", className)
  {
    var card := "card";
    assert card[0] == 'c' && card[0] in card && !Blank(card);
    assert forall i :: 0 <= i < |card| ==> 'a' <= card[i] <= 'z';
    assert Fold(card) == card;
    assert card[1..][1..][1..][1..] == [];
    hide Blank, WellFormed;
    StripLetters(card);
    assert WellFormed(card) by { CardWellFormed(); }
  }

  lemma CardWellFormed()
    ensures WellFormed("card")
  {
  }

  /** The prefix chosen for a body with one prefix replaces all others. */
  lemma ChosenPrefix(base: seq<Prop>, fallback: string, className: string)
    requires OnePrefix(base) && WellFormed(fallback)
    ensures var prefix := PrefixForClass(TextOf(FirstOfProps(base)), fallback, className);
            WellFormed(prefix) && FitsClass(prefix, className) && Replaces(PrefixesOfProps(base), prefix, className)
  {
    CardFits(className);
    FirstOfPropsShape(base);
    assert !FitsClass("", className) by {
      assert Blank("");
    }
    hide FitsClass, WellFormed, FirstOfProps, PrefixesOfProps;
  }

  lemma {:induction false} UntouchedByAny(
    canonical: Canonical, prefix: string, next: string, requirements: seq<Requirement>, key: string)
    ensures LastTouch(canonical, prefix, requirements, key).None?
            <==> LastTouch(canonical, next, requirements, key).None?
    ensures !SomeComplete(requirements) ==> LastTouch(canonical, prefix, requirements, key).None?
  {
    hide IsAlias, Complete, CmdbuildPlaceholder;
    if requirements != [] {
      var front, last := requirements[..|requirements| - 1], requirements[|requirements| - 1];
      assert last in requirements;
      assert forall r :: r in front ==> r in requirements;
      UntouchedByAny(canonical, prefix, next, front, key);
    }
  }

  lemma {:induction false} LastComplete(
    canonical: Canonical, prefix: string, next: string, requirements: seq<Requirement>)
    returns (r: Requirement)
    requires SomeComplete(requirements)
    ensures r in requirements && Complete(r)
    ensures LastTouch(canonical, prefix, requirements, r.payloadKey) ==
            Some(Some(Str(CmdbuildPlaceholder(prefix, r.placeholderAttribute))))
    ensures LastTouch(canonical, next, requirements, r.payloadKey) ==
            Some(Some(Str(CmdbuildPlaceholder(next, r.placeholderAttribute))))
  {
    hide IsAlias, CmdbuildPlaceholder, Complete;
    var front, last := requirements[..|requirements| - 1], requirements[|requirements| - 1];
    if Complete(last) {
      r := last;
    } else {
      var some :| some in requirements && Complete(some);
      assert requirements == front + [last];
      assert some in front;
      r := LastComplete(canonical, prefix, next, front);
    }
  }

  lemma PrefixShows(prefix: string, next: string, attribute: string)
    requires CmdbuildPlaceholder(prefix, attribute) == CmdbuildPlaceholder(next, attribute)
    ensures prefix == next
  {
    var text := CmdbuildPlaceholder(prefix, attribute);
    assert |prefix| == |text| - 3 - |attribute| == |next|;
    assert prefix == text[1..|prefix| + 1] && next == CmdbuildPlaceholder(next, attribute)[1..|next| + 1];
  }

  /** Building a body again from one that says the same as a body built before says the same exactly when the prefix is
      the same, or no requirement asks for it. */
  lemma BodyAgain(
    canonical: Canonical, identifier: string, slot: Slot, prefix: string, base: seq<Prop>, next: string,
    built: seq<Prop>)
    requires WellFormed(prefix) && FitsClass(prefix, slot.className)
    requires Content(built) == Content(BodyFor(canonical, identifier, slot, prefix, base))
    ensures Content(BodyFor(canonical, identifier, slot, next, built)) == Content(built)
            <==> (SomeComplete(slot.requirements) ==> next == prefix)
  {
    hide Content, BodyFor, Fixed, LastOf, LastTouch, At, SomeComplete, WellFormed, FitsClass, Normal;
    hide CmdbuildPlaceholder;
    var again, first := BodyFor(canonical, identifier, slot, next, built),
      BodyFor(canonical, identifier, slot, prefix, base);
    if SomeComplete(slot.requirements) && next != prefix {
      var r := LastComplete(canonical, prefix, next, slot.requirements);
      AtBody(canonical, identifier, slot, next, built, r.payloadKey);
      AtBody(canonical, identifier, slot, prefix, base, r.payloadKey);
      SameAt(built, first, r.payloadKey);
      if Content(again) == Content(built) {
        SameAt(again, built, r.payloadKey);
        PrefixShows(prefix, next, r.placeholderAttribute);
      }
    } else {
      forall key
        ensures At(again, key) == At(built, key)
      {
        SameAt(built, first, key);
        AtBody(canonical, identifier, slot, next, built, key);
        AtBody(canonical, identifier, slot, prefix, base, key);
        UntouchedByAny(canonical, prefix, next, slot.requirements, key);
        if At(base, key).Some? {
          NormalTwice(At(base, key).value, prefix, next, slot.className);
        }
      }
      SameKeys(again, built);
    }
  }

  lemma {:induction false} TouchPrefixes(
    canonical: Canonical, prefix: string, requirements: seq<Requirement>, key: string)
    requires WellFormed(prefix)
    requires LastTouch(canonical, prefix, requirements, key).Some?
             && LastTouch(canonical, prefix, requirements, key).value.Some?
    ensures Prefixes(LastTouch(canonical, prefix, requirements, key).value.value) <= {prefix}
  {
    hide IsAlias, CmdbuildPlaceholder, Placeholder, WellFormed;
    var front, last := requirements[..|requirements| - 1], requirements[|requirements| - 1];
    if Complete(last) && key == last.payloadKey {
      PlaceholderParses(prefix, last.placeholderAttribute);
    } else if !(Complete(last) && IsAlias(canonical, last, key)) {
      TouchPrefixes(canonical, prefix, front, key);
    }
  }

  lemma FixedPrefixes(slot: Slot, identifier: string, key: string)
    requires PlainSlot(slot, identifier) && LastOf(Fixed(slot, identifier), key).Some?
    ensures Prefixes(LastOf(Fixed(slot, identifier), key).value) == {}
  {
    assert IsPlain("cmdbuild") by {
      var text := "cmdbuild";
      assert text[0] != '{';
    }
    hide Placeholder;
    var fixed := Fixed(slot, identifier);
    forall i | 0 <= i < |fixed|
      ensures Prefixes(fixed[i].value) == {}
    {
    }
    LastOfOne(fixed, key);
  }

  lemma {:induction false} LastOfOne(props: seq<Prop>, key: string)
    requires forall i :: 0 <= i < |props| ==> Prefixes(props[i].value) == {}
    ensures LastOf(props, key).Some? ==> Prefixes(LastOf(props, key).value) == {}
  {
    hide Prefixes;
    if props != [] {
      LastOfOne(props[..|props| - 1], key);
    }
  }

  lemma BodyPrefixesAt(
    canonical: Canonical, identifier: string, slot: Slot, prefix: string, base: seq<Prop>, key: string)
    requires WellFormed(prefix) && Replaces(PrefixesOfProps(base), prefix, slot.className)
             && PlainSlot(slot, identifier)
    ensures var value := At(BodyFor(canonical, identifier, slot, prefix, base), key);
            value.Some? ==> Prefixes(value.value) <= {prefix}
  {
    hide BodyFor, Fixed, LastOf, LastTouch, At, WellFormed, FitsClass, Normal, Prefixes, PlainSlot;
    AtBody(canonical, identifier, slot, prefix, base, key);
    if LastTouch(canonical, prefix, slot.requirements, key).Some? {
      if LastTouch(canonical, prefix, slot.requirements, key).value.Some? {
        TouchPrefixes(canonical, prefix, slot.requirements, key);
      }
    } else if LastOf(Fixed(slot, identifier), key).Some? {
      FixedPrefixes(slot, identifier, key);
    } else if At(base, key).Some? {
      PrefixesAt(base, key);
      NormalPrefixes(At(base, key).value, prefix, slot.className);
    }
  }

  /** A built body with a requirement in it has the prefix it was built with. */
  lemma BuiltPrefix(
    canonical: Canonical, identifier: string, slot: Slot, prefix: string, base: seq<Prop>, built: seq<Prop>)
    requires WellFormed(prefix) && Replaces(PrefixesOfProps(base), prefix, slot.className)
             && PlainSlot(slot, identifier)
    requires Content(built) == Content(BodyFor(canonical, identifier, slot, prefix, base))
    requires Unique(built) && SomeComplete(slot.requirements)
    ensures FirstOfProps(built) == Some(prefix)
  {
    var r := LastComplete(canonical, prefix, prefix, slot.requirements);
    PlaceholderParses(prefix, r.placeholderAttribute);
    var value := Str(CmdbuildPlaceholder(prefix, r.placeholderAttribute));
    assert prefix in Prefixes(value);
    hide Content, BodyFor, LastTouch, At, WellFormed, FitsClass, Normal, Prefixes, SomeComplete, FirstOfProps;
    hide PrefixesOfProps;
    var first := BodyFor(canonical, identifier, slot, prefix, base);
    SameAt(built, first, r.payloadKey);
    AtBody(canonical, identifier, slot, prefix, base, r.payloadKey);
    PrefixesAt(built, r.payloadKey);
    forall i | 0 <= i < |built|
      ensures Prefixes(built[i].value) <= {prefix}
    {
      AtDistinct(built, i);
      BodyPrefixesAt(canonical, identifier, slot, prefix, base, built[i].name);
      SameAt(built, first, built[i].name);
    }
    PrefixesWithin(built, {prefix});
    FirstOfPropsShape(built);
  }

  /** Planning from a body that says what was planned plans the same, whatever the other webhooks suggest. */
  lemma BodySettles(
    canonical: Canonical, identifier: string, slot: Slot, base: seq<Prop>, fallback: string, built: seq<Prop>,
    nextFallback: string)
    requires OnePrefix(base) && WellFormed(fallback) && PlainSlot(slot, identifier) && Unique(built)
    requires var prefix := PrefixForClass(TextOf(FirstOfProps(base)), fallback, slot.className);
             Content(built) == Content(BodyFor(canonical, identifier, slot, prefix, base))
    ensures var next := PrefixForClass(TextOf(FirstOfProps(built)), nextFallback, slot.className);
            Content(BodyFor(canonical, identifier, slot, next, built)) == Content(built)
  {
    hide Content, BodyFor, WellFormed, FitsClass, SomeComplete, FirstOfProps, PrefixesOfProps, PlainSlot, OnePrefix;
    hide Replaces;
    var prefix := PrefixForClass(TextOf(FirstOfProps(base)), fallback, slot.className);
    ChosenPrefix(base, fallback, slot.className);
    if SomeComplete(slot.requirements) {
      BuiltPrefix(canonical, identifier, slot, prefix, base, built);
    }
    BodyAgain(canonical, identifier, slot, prefix, base,
              PrefixForClass(TextOf(FirstOfProps(built)), nextFallback, slot.className), built);
  }

  // ---------------------------------------------------------------- bodies with several prefixes

  ghost predicate AllFit(prefixes: set<string>, className: string) {
    forall p :: p in prefixes ==> FitsClass(p, className)
  }

  lemma {:induction false} NormalFits(value: Json, prefix: string, className: string)
    requires WellFormed(prefix) && FitsClass(prefix, className)
    ensures AllFit(Prefixes(Normal(value, prefix, className)), className)
    decreases value
  {
    hide FitsClass, Placeholder, CmdbuildPlaceholder;
    match value
    case Str(text) =>
      if Placeholder(text).Some? {
        PlaceholderParses(prefix, Placeholder(text).value.1);
      }
    case Arr(items) => NormalItemsFit(items, prefix, className);
    case Obj(props) => NormalPropsFit(props, prefix, className);
    case _ =>
  }

  lemma {:induction false} NormalItemsFit(items: seq<Json>, prefix: string, className: string)
    requires WellFormed(prefix) && FitsClass(prefix, className)
    ensures AllFit(PrefixesOfItems(NormalItems(items, prefix, className)), className)
    decreases items
  {
    hide FitsClass, Prefixes, Normal;
    if items != [] {
      NormalFits(items[0], prefix, className);
      NormalItemsFit(items[1..], prefix, className);
      assert NormalItems(items, prefix, className)[1..] == NormalItems(items[1..], prefix, className);
    }
  }

  lemma {:induction false} NormalPropsFit(props: seq<Prop>, prefix: string, className: string)
    requires WellFormed(prefix) && FitsClass(prefix, className)
    ensures AllFit(PrefixesOfProps(NormalProps(props, prefix, className)), className)
    decreases props
  {
    hide FitsClass, Prefixes, Normal;
    if props != [] {
      NormalFits(props[0].value, prefix, className);
      NormalPropsFit(props[1..], prefix, className);
      assert NormalProps(props, prefix, className)[1..] == NormalProps(props[1..], prefix, className);
    }
  }

  lemma BodyFitsAt(canonical: Canonical, identifier: string, slot: Slot, prefix: string, base: seq<Prop>, key: string)
    requires WellFormed(prefix) && FitsClass(prefix, slot.className) && PlainSlot(slot, identifier)
    ensures var value := At(BodyFor(canonical, identifier, slot, prefix, base), key);
            value.Some? ==> AllFit(Prefixes(value.value), slot.className)
  {
    hide BodyFor, Fixed, LastOf, LastTouch, At, WellFormed, FitsClass, Normal, Prefixes, PlainSlot;
    AtBody(canonical, identifier, slot, prefix, base, key);
    if LastTouch(canonical, prefix, slot.requirements, key).Some? {
      if LastTouch(canonical, prefix, slot.requirements, key).value.Some? {
        TouchPrefixes(canonical, prefix, slot.requirements, key);
      }
    } else if LastOf(Fixed(slot, identifier), key).Some? {
      FixedPrefixes(slot, identifier, key);
    } else if At(base, key).Some? {
      NormalFits(At(base, key).value, prefix, slot.className);
    }
  }

  lemma {:induction false} AllPropsFit(body: seq<Prop>, className: string)
    requires forall i :: 0 <= i < |body| ==> AllFit(Prefixes(body[i].value), className)
    ensures AllFit(PrefixesOfProps(body), className)
  {
    hide Prefixes, FitsClass;
    if body != [] {
      AllPropsFit(body[1..], className);
    }
  }

  /** A built body with a requirement in it has a placeholder, and all its placeholders fit the class. */
  lemma BuiltFits(
    canonical: Canonical, identifier: string, slot: Slot, prefix: string, base: seq<Prop>, built: seq<Prop>)
    requires WellFormed(prefix) && FitsClass(prefix, slot.className) && PlainSlot(slot, identifier)
    requires Content(built) == Content(BodyFor(canonical, identifier, slot, prefix, base))
    requires Unique(built) && SomeComplete(slot.requirements)
    ensures FirstOfProps(built).Some? && FitsClass(FirstOfProps(built).value, slot.className)
  {
    var r := LastComplete(canonical, prefix, prefix, slot.requirements);
    PlaceholderParses(prefix, r.placeholderAttribute);
    var value := Str(CmdbuildPlaceholder(prefix, r.placeholderAttribute));
    assert prefix in Prefixes(value);
    hide Content, BodyFor, LastTouch, At, WellFormed, FitsClass, Normal, Prefixes, SomeComplete, FirstOfProps;
    hide PrefixesOfProps;
    var first := BodyFor(canonical, identifier, slot, prefix, base);
    SameAt(built, first, r.payloadKey);
    AtBody(canonical, identifier, slot, prefix, base, r.payloadKey);
    PrefixesAt(built, r.payloadKey);
    forall i | 0 <= i < |built|
      ensures AllFit(Prefixes(built[i].value), slot.className)
    {
      AtDistinct(built, i);
      BodyFitsAt(canonical, identifier, slot, prefix, base, built[i].name);
      SameAt(built, first, built[i].name);
    }
    AllPropsFit(built, slot.className);
    FirstOfPropsShape(built);
  }

  lemma PrefixFits(base: seq<Prop>, fallback: string, className: string)
    requires WellFormed(fallback)
    ensures var prefix := PrefixForClass(TextOf(FirstOfProps(base)), fallback, className);
            WellFormed(prefix) && FitsClass(prefix, className)
  {
    CardFits(className);
    FirstOfPropsShape(base);
    assert !FitsClass("", className) by {
      assert Blank("");
    }
    hide FitsClass, WellFormed, FirstOfProps, PrefixesOfProps;
  }

  /** Planning from a body that says what was planned plans the same exactly when its first placeholder, what is left
      of the old body first, has the prefix that was planned with; or when nothing is required. */
  lemma BodySettlesExactly(
    canonical: Canonical, identifier: string, slot: Slot, base: seq<Prop>, fallback: string, built: seq<Prop>,
    nextFallback: string)
    requires WellFormed(fallback) && PlainSlot(slot, identifier) && Unique(built)
    requires var prefix := PrefixForClass(TextOf(FirstOfProps(base)), fallback, slot.className);
             Content(built) == Content(BodyFor(canonical, identifier, slot, prefix, base))
    ensures var prefix := PrefixForClass(TextOf(FirstOfProps(base)), fallback, slot.className);
            var next := PrefixForClass(TextOf(FirstOfProps(built)), nextFallback, slot.className);
            Content(BodyFor(canonical, identifier, slot, next, built)) == Content(built)
            <==> (SomeComplete(slot.requirements) ==> FirstOfProps(built) == Some(prefix))
  {
    hide Content, BodyFor, WellFormed, FitsClass, SomeComplete, FirstOfProps, PrefixesOfProps, PlainSlot, Unique;
    var prefix := PrefixForClass(TextOf(FirstOfProps(base)), fallback, slot.className);
    var next := PrefixForClass(TextOf(FirstOfProps(built)), nextFallback, slot.className);
    PrefixFits(base, fallback, slot.className);
    if SomeComplete(slot.requirements) {
      BuiltFits(canonical, identifier, slot, prefix, base, built);
      assert next == FirstOfProps(built).value;
    }
    BodyAgain(canonical, identifier, slot, prefix, base, next, built);
  }
}
