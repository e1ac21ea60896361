/** After a plan is carried out, planning again finds nothing to create or update. */
module WebhookConvergence {
  import opened Text
  import JsonModel
  import opened WebhookBody
  import opened WebhookBodyProofs
  import opened WebhookReconciler

  /** Requirements leave the managed identifier of the body alone. */
  ghost predicate KeepsIdentifier(canonical: Canonical, requirements: seq<Requirement>) {
    forall r :: r in requirements && Complete(r) ==>
      r.payloadKey != "managedIdentifier" && !IsAlias(canonical, r, "managedIdentifier")
  }

  /** What the options and a slot need for a plan to settle. */
  ghost predicate SlotReady(options: Options, canonical: Canonical, slot: Slot) {
    && !Blank(options.managedIdentifier) && PlainSlot(slot, options.managedIdentifier)
    && KeepsIdentifier(canonical, slot.requirements)
  }

  /** A body is an object, and its placeholders have one prefix. */
  ghost predicate HookReady(hook: Hook) {
    Unique(hook.body) && OnePrefix(hook.body)
  }

  /** The webhooks with these codes are this service's, and ready. */
  ghost predicate HooksReady(options: Options, keys: set<string>, hooks: seq<Hook>) {
    forall hook :: hook in hooks && RuleName(hook.code) in keys ==> IsManaged(options, hook) && HookReady(hook)
  }

  /** The webhooks with these codes are this service's, and their bodies are objects. */
  ghost predicate HooksOwn(options: Options, keys: set<string>, hooks: seq<Hook>) {
    forall hook :: hook in hooks && RuleName(hook.code) in keys ==> IsManaged(options, hook) && Unique(hook.body)
  }

  /** The webhooks with these codes are this service's. */
  ghost predicate NoForeign(options: Options, keys: set<string>, hooks: seq<Hook>) {
    forall hook :: hook in hooks && RuleName(hook.code) in keys ==> IsManaged(options, hook)
  }

  ghost predicate DistinctKeys(options: Options, slots: seq<Slot>) {
    forall i, j :: 0 <= i < j < |slots| ==> KeyOf(options, slots[i]) != KeyOf(options, slots[j])
  }

  lemma NormalItemShape(options: Options, hook: Hook)
    ensures NormalItem(NormalItem(hook)) == NormalItem(hook)
    ensures IsManaged(options, NormalItem(hook)) == IsManaged(options, hook)
  {
    FoldIdempotent(hook.httpMethod);
    hide Fold, Truthy, FirstText, At;
  }

  // ---------------------------------------------------------------- finding a webhook by its code

  lemma CurrentAppend(options: Options, hooks: seq<Hook>, hook: Hook, key: string)
    ensures CurrentFor(options, hooks + [hook], key) ==
            if IsManaged(options, NormalItem(hook)) && RuleName(hook.code) == key then Some(NormalItem(hook))
            else CurrentFor(options, hooks, key)
  {
    hide IsManaged, RuleName;
    assert (hooks + [hook])[..|hooks|] == hooks;
  }

  lemma {:induction false} CurrentIn(options: Options, hooks: seq<Hook>, key: string) returns (hook: Hook)
    requires CurrentFor(options, hooks, key).Some?
    ensures hook in hooks && CurrentFor(options, hooks, key) == Some(NormalItem(hook)) && RuleName(hook.code) == key
    ensures IsManaged(options, hook)
  {
    hide IsManaged, RuleName;
    var front, last := hooks[..|hooks| - 1], hooks[|hooks| - 1];
    NormalItemShape(options, last);
    if IsManaged(options, NormalItem(last)) && RuleName(last.code) == key {
      hook := last;
    } else {
      hook := CurrentIn(options, front, key);
    }
  }

  lemma {:induction false} CurrentReplaced(options: Options, hooks: seq<Hook>, key: string, hook: Hook, other: string)
    requires IsManaged(options, hook) && NormalItem(hook) == hook && RuleName(hook.code) == key
    requires NoForeign(options, {key}, hooks) && CurrentFor(options, hooks, key).Some?
    ensures CurrentFor(options, Replaced(hooks, key, hook), other) ==
            if other == key then Some(hook) else CurrentFor(options, hooks, other)
  {
    hide IsManaged, RuleName, NormalItem;
    var front, last := hooks[..|hooks| - 1], hooks[|hooks| - 1];
    if RuleName(last.code) == key {
      assert last in hooks;
      NormalItemShape(options, last);
      CurrentAppend(options, front, hook, other);
      SameCode(last);
    } else {
      SameCode(last);
      CurrentReplaced(options, front, key, hook, other);
      CurrentAppend(options, Replaced(front, key, hook), last, other);
    }
  }

  lemma SameCode(hook: Hook)
    ensures NormalItem(hook).code == hook.code && NormalItem(hook).body == hook.body
  {
  }

  lemma {:induction false} ReplacedElements(hooks: seq<Hook>, key: string, hook: Hook)
    ensures forall x :: x in Replaced(hooks, key, hook) ==> x in hooks || x == hook
  {
    hide RuleName;
    if hooks != [] {
      ReplacedElements(hooks[..|hooks| - 1], key, hook);
    }
  }

  // ---------------------------------------------------------------- one slot

  ghost predicate GoodDefaults(defaults: Defaults) {
    defaults.httpMethod != "" && defaults.url != "" && WellFormed(defaults.prefix)
  }

  lemma DefaultsGood(options: Options, hooks: seq<Hook>)
    ensures GoodDefaults(DefaultsOf(options, hooks))
  {
    CardWellFormed();
    assert FALLBACK_URL[0] == 'h';
    var managed := Managed(options, hooks);
    var sample := OrElse(FirstWithUrl(managed), if managed == [] then None else Some(managed[0]));
    hide WellFormed, FirstOfProps, Managed, FirstWithUrl;
    if sample.Some? {
      FirstOfPropsShape(sample.value.body);
    }
  }

  lemma {:induction false} IdentifierUntouched(
    canonical: Canonical, prefix: string, requirements: seq<Requirement>, key: string)
    requires forall r :: r in requirements && Complete(r) ==> r.payloadKey != key && !IsAlias(canonical, r, key)
    ensures LastTouch(canonical, prefix, requirements, key) == None
  {
    hide IsAlias, Complete, CmdbuildPlaceholder;
    if requirements != [] {
      assert requirements[|requirements| - 1] in requirements;
      IdentifierUntouched(canonical, prefix, requirements[..|requirements| - 1], key);
    }
  }

  lemma IdentifierFixed(slot: Slot, identifier: string)
    requires identifier != ""
    ensures LastOf(Fixed(slot, identifier), "managedIdentifier") == Some(JsonModel.Str(identifier))
  {
  }

  /** What is desired is this service's webhook with the code of its slot. */
  lemma DesiredManaged(options: Options, canonical: Canonical, slot: Slot, current: Option<Hook>, defaults: Defaults)
    requires SlotReady(options, canonical, slot)
    ensures var desired := Desired(options, canonical, slot, current, defaults);
            IsManaged(options, desired) && NormalItem(desired) == desired
              && RuleName(desired.code) == KeyOf(options, slot)
  {
    var desired := Desired(options, canonical, slot, current, defaults);
    var key := "managedIdentifier";
    var prefix := PrefixOf(slot, current, defaults);
    IdentifierManaged(options, desired);
    hide BodyFor, LastTouch, LastOf, Fixed, PrefixOf, RuleName, IsAlias, Complete, PlainSlot, IsManaged, Mapped, At;
    hide Blank;
    IdentifierUntouched(canonical, prefix, slot.requirements, key);
    NotBlankNotEmpty(options.managedIdentifier);
    IdentifierFixed(slot, options.managedIdentifier);
    AtBody(canonical, options.managedIdentifier, slot, prefix, BaseOf(current), key);
    FoldIdempotent(OrText(if current.Some? then current.value.httpMethod else "", defaults.httpMethod));
    FoldIdempotent(defaults.httpMethod);
    assert options.managedPrefix <= desired.code;
    hide Desired;
  }

  lemma NotBlankNotEmpty(text: string)
    requires !Blank(text)
    ensures text != ""
  {
  }

  lemma IdentifierManaged(options: Options, hook: Hook)
    ensures (&& !Blank(options.managedIdentifier) && options.managedPrefix <= hook.code
             && At(hook.body, "managedIdentifier") == Some(JsonModel.Str(options.managedIdentifier)))
            ==> IsManaged(options, hook)
  {
    hide At;
    var values := [At(hook.body, "managedIdentifier"), At(hook.body, "ManagedIdentifier")];
    assert values[0] == At(hook.body, "managedIdentifier");
  }

  lemma DesiredUnique(options: Options, canonical: Canonical, slot: Slot, current: Option<Hook>, defaults: Defaults)
    requires current.Some? ==> Unique(current.value.body)
    ensures Unique(Desired(options, canonical, slot, current, defaults).body)
  {
    assert Unique([]);
    hide Unique, BodyFor, PrefixOf;
    BodyUnique(canonical, options.managedIdentifier, slot, PrefixOf(slot, current, defaults), BaseOf(current));
  }

  /** A webhook that compares equal to what was desired is what is desired next, whatever the other webhooks are then,
      exactly when its first placeholder has the prefix that was planned with, or nothing is required. */
  lemma SlotSettlesExactly(
    options: Options, canonical: Canonical, slot: Slot, current: Option<Hook>, defaults: Defaults, hook: Hook,
    next: Defaults)
    requires SlotReady(options, canonical, slot) && GoodDefaults(defaults) && Unique(hook.body)
    requires ComparableOf(hook) == ComparableOf(Desired(options, canonical, slot, current, defaults))
    ensures ComparableOf(Desired(options, canonical, slot, Some(hook), next)) == ComparableOf(hook)
            <==> KeepsPrefix(slot, hook, PrefixOf(slot, current, defaults))
  {
    hide Unique, BodyFor, WellFormed, Content, FirstOfProps, PrefixForClass, PlainSlot, KeepsIdentifier, Blank, CodeOf;
    BodySettlesExactly(canonical, options.managedIdentifier, slot, BaseOf(current), defaults.prefix, hook.body,
                       next.prefix);
    KeptFields(options, canonical, slot, current, defaults, hook, next);
  }

  /** The first placeholder of the webhook's body has the prefix, if any is required. */
  ghost predicate KeepsPrefix(slot: Slot, hook: Hook, prefix: string) {
    SomeComplete(slot.requirements) ==> FirstOfProps(hook.body) == Some(prefix)
  }

  /** One prefix in the old body is enough. */
  lemma OnePrefixKeeps(
    options: Options, canonical: Canonical, slot: Slot, current: Option<Hook>, defaults: Defaults, hook: Hook)
    requires SlotReady(options, canonical, slot) && GoodDefaults(defaults) && Unique(hook.body)
    requires current.Some? ==> HookReady(current.value)
    requires ComparableOf(hook) == ComparableOf(Desired(options, canonical, slot, current, defaults))
    ensures KeepsPrefix(slot, hook, PrefixOf(slot, current, defaults))
  {
    assert OnePrefix([]);
    hide Unique, OnePrefix, BodyFor, WellFormed, Content, FirstOfProps, PlainSlot, KeepsIdentifier, Blank, CodeOf;
    hide SomeComplete;
    var base := BaseOf(current);
    ChosenPrefix(base, defaults.prefix, slot.className);
    if SomeComplete(slot.requirements) {
      BuiltPrefix(canonical, options.managedIdentifier, slot, PrefixOf(slot, current, defaults), base, hook.body);
    }
  }

  lemma KeptFields(
    options: Options, canonical: Canonical, slot: Slot, current: Option<Hook>, defaults: Defaults, hook: Hook,
    next: Defaults)
    requires defaults.httpMethod != "" && defaults.url != ""
    requires ComparableOf(hook) == ComparableOf(Desired(options, canonical, slot, current, defaults))
    ensures var again := Desired(options, canonical, slot, Some(hook), next);
            ComparableOf(again).(body := map[]) == ComparableOf(hook).(body := map[])
  {
    hide BodyFor, Content, PrefixOf, CodeOf, BaseOf, ComparableHeaders;
    assert Described(slot)[0] == 'c';
    hide Described;
    var desired := Desired(options, canonical, slot, current, defaults);
    FoldIdempotent(OrText(if current.Some? then current.value.httpMethod else "", defaults.httpMethod));
    FoldIdempotent(hook.httpMethod);
    assert |Fold(hook.httpMethod)| == |hook.httpMethod| && |Fold(defaults.httpMethod)| == |defaults.httpMethod|;
    assert Fold(hook.httpMethod) == Fold(desired.httpMethod);
    assert |desired.httpMethod| == |Fold(desired.httpMethod)|;
    hide Fold;
  }

  // ---------------------------------------------------------------- all slots

  /** The webhook a slot has once its operation is carried out. */
  ghost function Carried(current: Option<Hook>, desired: Hook): Hook {
    if SlotOperation(current, desired) == [] then current.value else desired
  }

  /** The slot's webhook is the desired one, or the one it had where that compares equal. */
  ghost predicate Settled(options: Options, canonical: Canonical, slot: Slot, hooks: seq<Hook>, after: seq<Hook>) {
    var current, desired := CurrentFor(options, hooks, KeyOf(options, slot)),
      DesiredFor(options, canonical, slot, hooks);
    && CurrentFor(options, after, KeyOf(options, slot)) == Some(Carried(current, desired))
    && Unique(Carried(current, desired).body)
  }

  lemma AfterOne(hooks: seq<Hook>, operations: seq<Operation>, operation: Operation)
    ensures AfterPlan(hooks, operations + [operation]) == Applied(AfterPlan(hooks, operations), operation)
  {
    assert (operations + [operation])[..|operations|] == operations;
  }

  /** Carrying out the operation of one slot settles it and leaves the others alone. */
  lemma OneSlot(
    options: Options, canonical: Canonical, slot: Slot, hooks: seq<Hook>, keys: set<string>, middle: seq<Hook>)
    returns (after: seq<Hook>)
    requires SlotReady(options, canonical, slot) && KeyOf(options, slot) in keys
    requires HooksOwn(options, keys, hooks) && NoForeign(options, keys, middle)
    requires CurrentFor(options, middle, KeyOf(options, slot)) == CurrentFor(options, hooks, KeyOf(options, slot))
    ensures var operations := SlotOperation(CurrentFor(options, hooks, KeyOf(options, slot)),
                                            DesiredFor(options, canonical, slot, hooks));
            after == if operations == [] then middle else Applied(middle, operations[0])
    ensures NoForeign(options, keys, after) && Settled(options, canonical, slot, hooks, after)
    ensures forall key :: key != KeyOf(options, slot) ==>
              CurrentFor(options, after, key) == CurrentFor(options, middle, key)
  {
    var current, desired := CurrentFor(options, hooks, KeyOf(options, slot)),
      DesiredFor(options, canonical, slot, hooks);
    var defaults, own := DefaultsOf(options, hooks), KeyOf(options, slot);
    hide IsManaged, RuleName, NormalItem, Desired, DefaultsOf, ComparableOf, KeyOf, Unique, SlotReady, Replaced;
    hide CurrentFor;
    if current.Some? {
      var hook := CurrentIn(options, hooks, own);
      SameCode(hook);
      assert hook in hooks && RuleName(hook.code) in keys;
    }
    DesiredManaged(options, canonical, slot, current, defaults);
    DesiredUnique(options, canonical, slot, current, defaults);
    if current.None? {
      after := middle + [desired];
      forall key
        ensures CurrentFor(options, after, key) ==
                if key == own then Some(desired) else CurrentFor(options, middle, key)
      {
        CurrentAppend(options, middle, desired, key);
      }
    } else if ComparableOf(current.value) == ComparableOf(desired) {
      after := middle;
    } else {
      after := Replaced(middle, own, desired);
      assert NoForeign(options, {own}, middle);
      ReplacedElements(middle, own, desired);
      forall key
        ensures CurrentFor(options, after, key) ==
                if key == own then Some(desired) else CurrentFor(options, middle, key)
      {
        CurrentReplaced(options, middle, own, desired, key);
      }
    }
  }

  /** The plan of one more slot is carried out by its one operation, if it has one. */
  lemma LastSlot(options: Options, canonical: Canonical, slots: seq<Slot>, hooks: seq<Hook>)
    requires slots != []
    ensures var front, last := slots[..|slots| - 1], slots[|slots| - 1];
            var middle := AfterPlan(hooks, SlotOperations(options, canonical, front, hooks));
            var operations := SlotOperation(CurrentFor(options, hooks, KeyOf(options, last)),
                                            DesiredFor(options, canonical, last, hooks));
            AfterPlan(hooks, SlotOperations(options, canonical, slots, hooks)) ==
              if operations == [] then middle else Applied(middle, operations[0])
  {
    hide CurrentFor, DesiredFor, ComparableOf, KeyOf, Applied;
    var front, last := slots[..|slots| - 1], slots[|slots| - 1];
    var before := SlotOperations(options, canonical, front, hooks);
    var operations := SlotOperation(CurrentFor(options, hooks, KeyOf(options, last)),
                                    DesiredFor(options, canonical, last, hooks));
    if operations == [] {
      assert before + [] == before;
    } else {
      AfterOne(hooks, before, operations[0]);
      assert operations == [operations[0]];
    }
  }

  lemma SettledStays(
    options: Options, canonical: Canonical, slot: Slot, hooks: seq<Hook>, middle: seq<Hook>, after: seq<Hook>)
    requires Settled(options, canonical, slot, hooks, middle)
    requires CurrentFor(options, after, KeyOf(options, slot)) == CurrentFor(options, middle, KeyOf(options, slot))
    ensures Settled(options, canonical, slot, hooks, after)
  {
    hide CurrentFor, ComparableOf, DesiredFor, KeyOf, Unique;
  }

  ghost predicate NoSlotFor(options: Options, slots: seq<Slot>, key: string) {
    forall i :: 0 <= i < |slots| ==> KeyOf(options, slots[i]) != key
  }

  lemma {:induction false} AllSlots(
    options: Options, canonical: Canonical, slots: seq<Slot>, hooks: seq<Hook>, keys: set<string>)
    requires DistinctKeys(options, slots) && HooksOwn(options, keys, hooks)
    requires forall i :: 0 <= i < |slots| ==>
               SlotReady(options, canonical, slots[i]) && KeyOf(options, slots[i]) in keys
    ensures var after := AfterPlan(hooks, SlotOperations(options, canonical, slots, hooks));
            && NoForeign(options, keys, after)
            && (forall i :: 0 <= i < |slots| ==> Settled(options, canonical, slots[i], hooks, after))
            && (forall key :: NoSlotFor(options, slots, key) ==>
                CurrentFor(options, after, key) == CurrentFor(options, hooks, key))
  {
    hide IsManaged, RuleName, DesiredFor, ComparableOf, KeyOf, Unique, SlotReady, Applied, CurrentFor, Settled;
    hide SlotOperation;
    if slots != [] {
      var front, last := slots[..|slots| - 1], slots[|slots| - 1];
      var middle := AfterPlan(hooks, SlotOperations(options, canonical, front, hooks));
      AllSlots(options, canonical, front, hooks, keys);
      assert NoSlotFor(options, front, KeyOf(options, last));
      hide HooksOwn, NoForeign, AfterPlan, SlotOperations;
      var after := OneSlot(options, canonical, last, hooks, keys, middle);
      LastSlot(options, canonical, slots, hooks);
      forall i | 0 <= i < |front|
        ensures Settled(options, canonical, slots[i], hooks, after)
      {
        assert front[i] == slots[i] && KeyOf(options, slots[i]) != KeyOf(options, last);
        SettledStays(options, canonical, slots[i], hooks, middle, after);
      }
      forall key | NoSlotFor(options, slots, key)
        ensures CurrentFor(options, after, key) == CurrentFor(options, hooks, key)
      {
        assert NoSlotFor(options, front, key) by {
          assert forall i :: 0 <= i < |front| ==> front[i] == slots[i];
        }
        assert slots[|slots| - 1] == last;
      }
    }
  }

  lemma {:induction false} DeletesUnselected(hooks: seq<Hook>, writes: seq<Operation>, deletes: seq<Operation>)
    requires forall i :: 0 <= i < |deletes| ==> deletes[i].Delete?
    ensures AfterPlan(hooks, writes + deletes) == AfterPlan(hooks, writes)
  {
    hide Replaced;
    if deletes == [] {
      assert writes + deletes == writes;
    } else {
      var front, last := deletes[..|deletes| - 1], deletes[|deletes| - 1];
      assert writes + deletes == (writes + front) + [last];
      AfterOne(hooks, writes + front, last);
      DeletesUnselected(hooks, writes, front);
    }
  }

  lemma {:induction false} OnlyDeletes(options: Options, keys: set<string>, hooks: seq<Hook>)
    ensures forall i :: 0 <= i < |DeleteOperations(options, keys, hooks)| ==>
              DeleteOperations(options, keys, hooks)[i].Delete?
  {
    hide IsManaged, RuleName, NormalItem;
    if hooks != [] {
      OnlyDeletes(options, keys, hooks[..|hooks| - 1]);
    }
  }

  /** The first placeholder of the body planned for the slot has the prefix it was planned with, if there is an
      operation for the slot and any field is required. */
  ghost predicate PrefixKept(options: Options, canonical: Canonical, slot: Slot, hooks: seq<Hook>) {
    var current, desired := CurrentFor(options, hooks, KeyOf(options, slot)),
      DesiredFor(options, canonical, slot, hooks);
    SlotOperation(current, desired) != [] ==>
        KeepsPrefix(slot, desired, PrefixOf(slot, current, DefaultsOf(options, hooks)))
  }

  /** A webhook that needs no operation has the prefix that is planned with. */
  lemma UnwrittenKeepsPrefix(options: Options, canonical: Canonical, slot: Slot, hook: Hook, defaults: Defaults)
    requires SlotReady(options, canonical, slot) && GoodDefaults(defaults) && Unique(hook.body)
    requires ComparableOf(hook) == ComparableOf(Desired(options, canonical, slot, Some(hook), defaults))
    ensures KeepsPrefix(slot, hook, PrefixOf(slot, Some(hook), defaults))
  {
    hide Unique, BodyFor, WellFormed, FitsClass, Content, FirstOfProps, PlainSlot, KeepsIdentifier, Blank, CodeOf;
    hide SomeComplete;
    var prefix := PrefixOf(slot, Some(hook), defaults);
    PrefixFits(hook.body, defaults.prefix, slot.className);
    if SomeComplete(slot.requirements) {
      BuiltFits(canonical, options.managedIdentifier, slot, prefix, hook.body, hook.body);
    }
  }

  /** Planning again for a slot whose operation was carried out. */
  lemma SlotRemains(options: Options, canonical: Canonical, slot: Slot, hooks: seq<Hook>, after: seq<Hook>)
    requires SlotReady(options, canonical, slot) && Settled(options, canonical, slot, hooks, after)
    ensures SlotOperation(CurrentFor(options, after, KeyOf(options, slot)),
                          DesiredFor(options, canonical, slot, after)) == []
            <==> PrefixKept(options, canonical, slot, hooks)
  {
    hide SlotReady, Unique, ComparableOf, KeyOf, Desired, DefaultsOf, CurrentFor, GoodDefaults, KeepsPrefix, PrefixOf;
    var current, desired := CurrentFor(options, hooks, KeyOf(options, slot)),
      DesiredFor(options, canonical, slot, hooks);
    var hook := Carried(current, desired);
    DefaultsGood(options, hooks);
    SlotSettlesExactly(options, canonical, slot, current, DefaultsOf(options, hooks), hook, DefaultsOf(options, after));
    if SlotOperation(current, desired) == [] {
      UnwrittenKeepsPrefix(options, canonical, slot, hook, DefaultsOf(options, hooks));
    }
  }

  lemma {:induction false} RemainingWrites(
    options: Options, canonical: Canonical, slots: seq<Slot>, hooks: seq<Hook>, after: seq<Hook>)
    requires forall i :: 0 <= i < |slots| ==>
               SlotReady(options, canonical, slots[i]) && Settled(options, canonical, slots[i], hooks, after)
    ensures SlotOperations(options, canonical, slots, after) == [] <==>
            forall i :: 0 <= i < |slots| ==> PrefixKept(options, canonical, slots[i], hooks)
  {
    hide SlotReady, KeyOf, DesiredFor, CurrentFor, Settled, PrefixKept, SlotOperation;
    if slots != [] {
      var front, slot := slots[..|slots| - 1], slots[|slots| - 1];
      RemainingWrites(options, canonical, front, hooks, after);
      SlotRemains(options, canonical, slot, hooks, after);
      assert forall i :: 0 <= i < |front| ==> front[i] == slots[i];
      assert (forall i :: 0 <= i < |slots| ==> PrefixKept(options, canonical, slots[i], hooks)) <==>
             (forall i :: 0 <= i < |front| ==> PrefixKept(options, canonical, front[i], hooks)) &&
             PrefixKept(options, canonical, slot, hooks);
    }
  }

  lemma SomeWrite(options: Options, canonical: Canonical, slots: seq<Slot>, hooks: seq<Hook>)
    ensures OnlyRemovals(Plan(options, canonical, slots, hooks))
            <==> SlotOperations(options, canonical, slots, hooks) == []
  {
    hide SlotOperations, DeleteOperations, KeyOf;
    var writes, deletes := SlotOperations(options, canonical, slots, hooks),
      DeleteOperations(options, Keys(options, slots), hooks);
    hide Keys;
    OnlyDeletes(options, Keys(options, slots), hooks);
    if writes != [] {
      assert Plan(options, canonical, slots, hooks)[0] == writes[0] && writes[0] in writes;
      if writes[0].Delete? {
        NoDeletes(options, canonical, slots, hooks, writes[0].current);
      }
    } else {
      assert [] + deletes == deletes;
    }
  }

  ghost predicate OnlyRemovals(operations: seq<Operation>) {
    forall i :: 0 <= i < |operations| ==> operations[i].Delete?
  }

  /** After the creates and updates of a plan every slot has the webhook that was desired for it; and planning again
      yields no create or update exactly when the first placeholder of every body that was written has the prefix it
      was planned with. It needs distinct codes, no foreign webhook with a desired code, and an identifier that no
      requirement touches. */
  lemma ReconciliationSettlesExactly(options: Options, canonical: Canonical, slots: seq<Slot>, hooks: seq<Hook>)
    requires DistinctKeys(options, slots) && HooksOwn(options, Keys(options, slots), hooks)
    requires forall i :: 0 <= i < |slots| ==> SlotReady(options, canonical, slots[i])
    ensures var after := AfterPlan(hooks, Plan(options, canonical, slots, hooks));
            && (forall i :: 0 <= i < |slots| ==> Settled(options, canonical, slots[i], hooks, after))
            && (OnlyRemovals(Plan(options, canonical, slots, after)) <==>
                forall i :: 0 <= i < |slots| ==> PrefixKept(options, canonical, slots[i], hooks))
  {
    var keys := Keys(options, slots);
    forall i | 0 <= i < |slots|
      ensures KeyOf(options, slots[i]) in keys
    {
      assert slots[i] in slots;
    }
    hide SlotReady, ComparableOf, KeyOf, CurrentFor, Keys, AfterPlan, SlotOperations, DeleteOperations, RuleName;
    hide IsManaged, Settled;
    hide HooksOwn, DistinctKeys, PrefixKept;
    var writes, deletes := SlotOperations(options, canonical, slots, hooks), DeleteOperations(options, keys, hooks);
    var after := AfterPlan(hooks, writes);
    AllSlots(options, canonical, slots, hooks, keys);
    OnlyDeletes(options, keys, hooks);
    DeletesUnselected(hooks, writes, deletes);
    RemainingWrites(options, canonical, slots, hooks, after);
    SomeWrite(options, canonical, slots, after);
  }

  lemma ReadyKeepsPrefix(options: Options, canonical: Canonical, slot: Slot, hooks: seq<Hook>)
    requires SlotReady(options, canonical, slot)
    requires HooksReady(options, {KeyOf(options, slot)}, hooks)
    ensures PrefixKept(options, canonical, slot, hooks)
  {
    hide SlotReady, ComparableOf, KeyOf, Desired, DefaultsOf, CurrentFor, GoodDefaults, KeepsPrefix, PrefixOf, RuleName;
    hide OnePrefix, Unique;
    var key := KeyOf(options, slot);
    var current, desired := CurrentFor(options, hooks, key), DesiredFor(options, canonical, slot, hooks);
    DefaultsGood(options, hooks);
    if current.Some? {
      var found := CurrentIn(options, hooks, key);
      ReadyNormal(found);
      assert found in hooks;
    }
    DesiredUnique(options, canonical, slot, current, DefaultsOf(options, hooks));
    OnePrefixKeeps(options, canonical, slot, current, DefaultsOf(options, hooks), desired);
  }

  lemma ReadyOwn(options: Options, keys: set<string>, hooks: seq<Hook>)
    requires HooksReady(options, keys, hooks)
    ensures HooksOwn(options, keys, hooks)
    ensures forall key :: key in keys ==> HooksReady(options, {key}, hooks)
  {
    hide RuleName, IsManaged, Unique, OnePrefix;
  }

  /** Reconciliation converges: after the creates and updates of a plan, planning again yields neither, when every
      webhook concerned has one placeholder prefix. */
  lemma ReconciliationConverges(options: Options, canonical: Canonical, slots: seq<Slot>, hooks: seq<Hook>)
    requires DistinctKeys(options, slots) && HooksReady(options, Keys(options, slots), hooks)
    requires forall i :: 0 <= i < |slots| ==> SlotReady(options, canonical, slots[i])
    ensures var after := AfterPlan(hooks, Plan(options, canonical, slots, hooks));
            && OnlyRemovals(Plan(options, canonical, slots, after))
            && (forall i :: 0 <= i < |slots| ==> Settled(options, canonical, slots[i], hooks, after))
  {
    hide SlotReady, KeyOf, AfterPlan, Plan, HooksReady, HooksOwn, Settled, PrefixKept, DistinctKeys, OnlyRemovals;
    ReadyOwn(options, Keys(options, slots), hooks);
    ReconciliationSettlesExactly(options, canonical, slots, hooks);
    forall i | 0 <= i < |slots|
      ensures PrefixKept(options, canonical, slots[i], hooks)
    {
      assert slots[i] in slots;
      ReadyKeepsPrefix(options, canonical, slots[i], hooks);
    }
  }

  /** A webhook that would not be recognized is created, is not recognized, and so is created again. */
  lemma UnmanagedIsCreatedAgain(options: Options, canonical: Canonical, slot: Slot, hooks: seq<Hook>)
    requires CurrentFor(options, hooks, KeyOf(options, slot)).None?
    requires !IsManaged(options, DesiredFor(options, canonical, slot, hooks))
    ensures var after := AfterPlan(hooks, Plan(options, canonical, [slot], hooks));
            && after == hooks + [DesiredFor(options, canonical, slot, hooks)]
            && CurrentFor(options, after, KeyOf(options, slot)).None?
            && SlotOperations(options, canonical, [slot], after) ==
                 [Create(DesiredFor(options, canonical, slot, after))]
  {
    hide IsManaged, RuleName, KeyOf, Desired, DefaultsOf, ComparableOf, NormalItem, Keys, DeleteOperations;
    var desired := DesiredFor(options, canonical, slot, hooks);
    assert [slot][..0] == [];
    assert SlotOperations(options, canonical, [slot], hooks) == [Create(desired)];
    AfterOne(hooks, [], Create(desired));
    assert [] + [Create(desired)] == [Create(desired)];
    OnlyDeletes(options, Keys(options, [slot]), hooks);
    DeletesUnselected(hooks, [Create(desired)], DeleteOperations(options, Keys(options, [slot]), hooks));
    NormalItemShape(options, desired);
    CurrentAppend(options, hooks, desired, KeyOf(options, slot));
  }

  lemma ReadyNormal(hook: Hook)
    ensures HookReady(NormalItem(hook)) <==> HookReady(hook)
  {
  }

  // ---------------------------------------------------------------- what a plan contains

  lemma {:induction false} DeleteOperationsExactly(options: Options, keys: set<string>, hooks: seq<Hook>, item: Hook)
    ensures Delete(item) in DeleteOperations(options, keys, hooks) <==>
            IsManaged(options, item) && RuleName(item.code) !in keys &&
            exists hook :: hook in hooks && item == NormalItem(hook)
  {
    hide IsManaged, RuleName, NormalItem;
    if hooks != [] {
      var front, last := hooks[..|hooks| - 1], hooks[|hooks| - 1];
      assert hooks == front + [last];
      DeleteOperationsExactly(options, keys, front, item);
    }
  }

  lemma {:induction false} NoDeletes(
    options: Options, canonical: Canonical, slots: seq<Slot>, hooks: seq<Hook>, item: Hook)
    ensures Delete(item) !in SlotOperations(options, canonical, slots, hooks)
  {
    hide CurrentFor, DesiredFor, ComparableOf, KeyOf;
    if slots != [] {
      NoDeletes(options, canonical, slots[..|slots| - 1], hooks, item);
    }
  }

  /** The deletes of a plan are exactly the managed webhooks that no slot desires. */
  lemma DeletesExactly(options: Options, canonical: Canonical, slots: seq<Slot>, hooks: seq<Hook>, item: Hook)
    ensures Delete(item) in Plan(options, canonical, slots, hooks) <==>
            && IsManaged(options, item) && (forall slot :: slot in slots ==>
                                            KeyOf(options, slot) != RuleName(item.code))
            && exists hook :: hook in hooks && item == NormalItem(hook)
  {
    hide IsManaged, RuleName, NormalItem, KeyOf, SlotOperations, DeleteOperations;
    NoDeletes(options, canonical, slots, hooks, item);
    DeleteOperationsExactly(options, Keys(options, slots), hooks, item);
  }

  /** What operators may have set on a webhook. */
  ghost predicate KeepsSettings(current: Hook, desired: Hook) {
    && desired.headers == current.headers && desired.language == current.language && desired.active == current.active
    && (current.description != "" ==> desired.description == current.description)
    && (current.url != "" ==> desired.url == current.url)
    && (current.httpMethod != "" ==> desired.httpMethod == current.httpMethod)
  }

  /** The update is for the slot's webhook, and points it to the slot's class and event. */
  ghost predicate UpdateFor(options: Options, slot: Slot, hooks: seq<Hook>, current: Hook, desired: Hook) {
    && CurrentFor(options, hooks, KeyOf(options, slot)) == Some(current)
    && desired.target == slot.className && desired.event == slot.cmdbuildEvent
  }

  /** An update is for the managed webhook of some slot, changes something, and keeps what operators have set. */
  lemma {:induction false} UpdatesKeepSettings(
    options: Options, canonical: Canonical, slots: seq<Slot>, hooks: seq<Hook>, current: Hook, desired: Hook)
    ensures Update(current, desired) in SlotOperations(options, canonical, slots, hooks) ==>
              && KeepsSettings(current, desired) && ComparableOf(current) != ComparableOf(desired)
              && exists slot :: slot in slots && UpdateFor(options, slot, hooks, current, desired)
  {
    hide IsManaged, RuleName, DefaultsOf, ComparableOf, CodeOf, BodyFor, PrefixOf, Described, Fold;
    if Update(current, desired) in SlotOperations(options, canonical, slots, hooks) {
      var front, last := slots[..|slots| - 1], slots[|slots| - 1];
      if Update(current, desired) in SlotOperations(options, canonical, front, hooks) {
        UpdatesKeepSettings(options, canonical, front, hooks, current, desired);
        var slot :| slot in front && UpdateFor(options, slot, hooks, current, desired);
        assert slot in slots;
      } else {
        var hook := CurrentIn(options, hooks, KeyOf(options, last));
        NormalItemShape(options, hook);
        assert NormalItem(current) == current;
        assert UpdateFor(options, last, hooks, current, desired);
      }
    }
  }

  function OperationKey(operation: Operation): string {
    RuleName(if operation.Delete? then operation.current.code else operation.desired.code)
  }

  /** How many operations a plan has for a code. */
  function CountFor(operations: seq<Operation>, key: string): nat {
    if operations == [] then 0
    else
      CountFor(operations[..|operations| - 1], key) + if OperationKey(operations[|operations| - 1]) == key then 1 else 0
  }

  lemma {:induction false} CountAppend(left: seq<Operation>, right: seq<Operation>, key: string)
    ensures CountFor(left + right, key) == CountFor(left, key) + CountFor(right, key)
  {
    hide OperationKey;
    if right == [] {
      assert left + right == left;
    } else {
      assert (left + right)[..|left + right| - 1] == left + right[..|right| - 1];
      CountAppend(left, right[..|right| - 1], key);
    }
  }

  lemma {:induction false} CountOfSlots(
    options: Options, canonical: Canonical, slots: seq<Slot>, hooks: seq<Hook>, key: string)
    requires DistinctKeys(options, slots)
    ensures CountFor(SlotOperations(options, canonical, slots, hooks), key) <= 1
    ensures (forall i :: 0 <= i < |slots| ==> KeyOf(options, slots[i]) != key) ==>
              CountFor(SlotOperations(options, canonical, slots, hooks), key) == 0
  {
    hide RuleName, CodeOf, CurrentFor, ComparableOf, DefaultsOf, BodyFor, Fold, Described, PrefixOf;
    if slots != [] {
      var front, last := slots[..|slots| - 1], slots[|slots| - 1];
      CountOfSlots(options, canonical, front, hooks, key);
      var operation := SlotOperation(CurrentFor(options, hooks, KeyOf(options, last)),
                                     DesiredFor(options, canonical, last, hooks));
      CountAppend(SlotOperations(options, canonical, front, hooks), operation, key);
      if operation != [] {
        assert operation[..0] == [];
        assert OperationKey(operation[0]) == KeyOf(options, last);
        assert CountFor(operation, key) == if KeyOf(options, last) == key then 1 else 0;
      }
    }
  }

  function ManagedCount(options: Options, hooks: seq<Hook>, key: string): nat {
    if hooks == [] then 0
    else
      var last := NormalItem(hooks[|hooks| - 1]);
      ManagedCount(options, hooks[..|hooks| - 1], key) + if IsManaged(options, last)
        && RuleName(last.code) == key then 1 else 0
  }

  lemma {:induction false} CountOfDeletes(options: Options, keys: set<string>, hooks: seq<Hook>, key: string)
    ensures CountFor(DeleteOperations(options, keys, hooks), key) ==
            if key in keys then 0 else ManagedCount(options, hooks, key)
  {
    hide IsManaged, RuleName, NormalItem;
    if hooks != [] {
      var last := NormalItem(hooks[|hooks| - 1]);
      CountOfDeletes(options, keys, hooks[..|hooks| - 1], key);
      CountAppend(DeleteOperations(options, keys, hooks[..|hooks| - 1]), [Delete(last)], key);
      assert [Delete(last)][..0] == [];
      var before := DeleteOperations(options, keys, hooks[..|hooks| - 1]);
      assert before + [] == before;
    }
  }

  /** Every code gets at most one operation, unless several obsolete webhooks of this service have the same one. */
  lemma OneOperationPerCode(options: Options, canonical: Canonical, slots: seq<Slot>, hooks: seq<Hook>, key: string)
    requires DistinctKeys(options, slots)
    ensures CountFor(Plan(options, canonical, slots, hooks), key) <= 1
            || (key !in Keys(options, slots) && CountFor(Plan(options, canonical, slots, hooks), key) ==
                ManagedCount(options, hooks, key))
  {
    hide RuleName, KeyOf, CountFor, ManagedCount, SlotOperations, DeleteOperations;
    var keys := Keys(options, slots);
    CountAppend(SlotOperations(options, canonical, slots, hooks), DeleteOperations(options, keys, hooks), key);
    CountOfSlots(options, canonical, slots, hooks, key);
    CountOfDeletes(options, keys, hooks, key);
    if key !in keys {
      forall i | 0 <= i < |slots|
        ensures KeyOf(options, slots[i]) != key
      {
        assert slots[i] in slots;
      }
    }
  }
}
