/** Inputs for which reconciliation does not settle, and the requirements that take the identifier away. */
module WebhookFailures {
  import opened Text
  import opened JsonModel
  import opened WebhookBody
  import opened WebhookBodyProofs
  import opened WebhookReconciler
  import opened WebhookConvergence

  // ---------------------------------------------------------------- the identifier

  lemma {:induction false} TouchExactly(
    canonical: Canonical, prefix: string, requirements: seq<Requirement>, key: string)
    ensures LastTouch(canonical, prefix, requirements, key).None? <==>
            forall r :: r in requirements && Complete(r) ==> r.payloadKey != key && !IsAlias(canonical, r, key)
    ensures LastTouch(canonical, prefix, requirements, key).Some?
            && LastTouch(canonical, prefix, requirements, key).value.Some? ==>
              exists r :: r in requirements && Complete(r) &&
                          LastTouch(canonical, prefix, requirements, key).value ==
                            Some(Str(CmdbuildPlaceholder(prefix, r.placeholderAttribute)))
  {
    hide IsAlias, Complete, CmdbuildPlaceholder;
    if requirements != [] {
      var front, last := requirements[..|requirements| - 1], requirements[|requirements| - 1];
      assert requirements == front + [last];
      TouchExactly(canonical, prefix, front, key);
    }
  }

  /** The body desired for a slot holds the identifier exactly when no requirement sends or deletes that key. */
  lemma IdentifierKeptExactly(
    options: Options, canonical: Canonical, slot: Slot, current: Option<Hook>, defaults: Defaults)
    requires !Blank(options.managedIdentifier) && PlainSlot(slot, options.managedIdentifier) && GoodDefaults(defaults)
    ensures var body := Desired(options, canonical, slot, current, defaults).body;
            At(body, "managedIdentifier") == Some(Str(options.managedIdentifier))
            <==> KeepsIdentifier(canonical, slot.requirements)
  {
    var key, identifier, prefix := "managedIdentifier", options.managedIdentifier, PrefixOf(slot, current, defaults);
    PrefixFits(BaseOf(current), defaults.prefix, slot.className);
    NotBlankNotEmpty(identifier);
    hide BodyFor, LastTouch, LastOf, Fixed, PrefixForClass, IsAlias, Mapped, At, Blank, WellFormed, FitsClass;
    hide Placeholder;
    hide CmdbuildPlaceholder, FirstOfProps;
    IdentifierFixed(slot, identifier);
    AtBody(canonical, identifier, slot, prefix, BaseOf(current), key);
    TouchExactly(canonical, prefix, slot.requirements, key);
    var touch := LastTouch(canonical, prefix, slot.requirements, key);
    if touch.Some? && touch.value.Some? {
      var r :| r in slot.requirements && Complete(r)
               && touch.value == Some(Str(CmdbuildPlaceholder(prefix, r.placeholderAttribute)));
      PlaceholderParses(prefix, r.placeholderAttribute);
    }
  }

  /** Running the reconciliation again and again, creates and updates only. */
  function Rounds(options: Options, canonical: Canonical, slots: seq<Slot>, hooks: seq<Hook>, n: nat): seq<Hook> {
    if n == 0 then hooks
    else
      var before := Rounds(options, canonical, slots, hooks, n - 1);
      AfterPlan(before, Plan(options, canonical, slots, before))
  }

  /** A slot whose only requirement is sent under the key of the identifier. */
  const TAKEN := Slot("Server", "create", "card_create_after",
                      [Requirement("host", "managedIdentifier", "managedIdentifier", "Code", "", "Code", [])])

  /** The service owns one url, its default. */
  const OWN := Options("p-", "", "id", "http://cmdb", url => NormalUrl(url) == NormalUrl("http://cmdb"))

  /** What is desired for it is never recognized as this service's. */
  lemma TakenIsUnmanaged(canonical: Canonical, defaults: Defaults)
    requires GoodDefaults(defaults)
    ensures !IsManaged(OWN, Desired(OWN, canonical, TAKEN, None, defaults))
  {
    var prefix, key := PrefixOf(TAKEN, None, defaults), "managedIdentifier";
    var body := BodyFor(canonical, "id", TAKEN, prefix, []);
    var text := CmdbuildPlaceholder(prefix, "Code");
    TakenIsSent(canonical, prefix);
    assert text[0] == '{' && !IsSpace('{') && text[0] in text && "id"[0] == 'i';
    hide BodyFor, PrefixOf, At, CmdbuildPlaceholder;
    var values := [At(body, key), At(body, "ManagedIdentifier")];
    assert FirstText(values) == Some(Str(text));
  }

  lemma TakenIsSent(canonical: Canonical, prefix: string)
    ensures At(BodyFor(canonical, "id", TAKEN, prefix, []), "managedIdentifier") ==
              Some(Str(CmdbuildPlaceholder(prefix, "Code")))
  {
    hide BodyFor, LastOf, Fixed, Mapped, At, CmdbuildPlaceholder, Placeholder, IsAlias;
    var key, requirement := "managedIdentifier", TAKEN.requirements[0];
    assert Complete(requirement) && requirement.payloadKey == key && requirement.placeholderAttribute == "Code";
    assert LastTouch(canonical, prefix, TAKEN.requirements, key) ==
             Some(Some(Str(CmdbuildPlaceholder(prefix, "Code"))));
    AtBody(canonical, "id", TAKEN, prefix, [], key);
  }

  /** So every reconciliation creates one more webhook for it, without end. */
  lemma {:induction false} TakenIsCreatedForever(canonical: Canonical, hooks: seq<Hook>, n: nat)
    requires CurrentFor(OWN, hooks, KeyOf(OWN, TAKEN)).None?
    ensures var after := Rounds(OWN, canonical, [TAKEN], hooks, n);
            |after| == |hooks| + n && CurrentFor(OWN, after, KeyOf(OWN, TAKEN)).None?
  {
    hide IsManaged, KeyOf, Desired, DefaultsOf, CurrentFor, GoodDefaults, Plan, AfterPlan, SlotOperations;
    if n > 0 {
      var before := Rounds(OWN, canonical, [TAKEN], hooks, n - 1);
      TakenIsCreatedForever(canonical, hooks, n - 1);
      DefaultsGood(OWN, before);
      TakenIsUnmanaged(canonical, DefaultsOf(OWN, before));
      UnmanagedIsCreatedAgain(OWN, canonical, TAKEN, before);
    }
  }

  // ---------------------------------------------------------------- the prefix

  const NEEDED := Requirement("code", "hostCode", "hostCode", "Code", "", "Code", [])

  const SERVERS := Slot("Server", "create", "card_create_after", [NEEDED])

  /** Its first placeholder has the prefix card and its second one the prefix Server; both fit the class. */
  const OLD_BODY := [Prop("Code", Str("{card:Code}")), Prop("b", Str("{Server:B}"))]

  const OLD_HOOK := Hook(CodeOf(OWN, SERVERS), "", "card_create_after", "Server", "post", "http://cmdb", map[],
                         OLD_BODY, "", true)

  lemma PrefixShown(text: string, prefix: string, attribute: string)
    requires text == CmdbuildPlaceholder(prefix, attribute) && WellFormed(prefix) && attribute != ""
             && '}' !in attribute
    ensures FirstPrefix(Str(text)) == Some(prefix)
  {
    hide CmdbuildPlaceholder, WellFormed, Placeholder;
    PlaceholderParses(prefix, attribute);
  }

  lemma CardShown()
    ensures FirstPrefix(Str("{card:Code}")) == Some("card")
  {
    assert "{card:Code}" == CmdbuildPlaceholder("card", "Code");
    hide CmdbuildPlaceholder, FirstPrefix;
    PrefixShown("{card:Code}", "card", "Code");
  }

  lemma ServerShown()
    ensures FirstPrefix(Str("{Server:B}")) == Some("Server")
  {
    assert "{Server:B}" == CmdbuildPlaceholder("Server", "B");
    hide CmdbuildPlaceholder, FirstPrefix;
    PrefixShown("{Server:B}", "Server", "B");
  }

  lemma LettersToken(text: string, folded: string)
    requires Fold(text) == folded && forall i :: 0 <= i < |folded| ==> 'a' <= folded[i] <= 'z'
    ensures Token(text) == folded
  {
    StripLetters(folded);
  }

  lemma CodeTokens()
    ensures Fold("Code") == "code" && Fold("code") == "code" && Token("Code") == "code" && Token("code") == "code"
  {
    hide Token;
    assert Fold("Code") == "code" && Fold("code") == "code";
    hide Fold;
    LettersToken("Code", "code");
    LettersToken("code", "code");
  }

  lemma OtherTokens()
    ensures Fold("b") == "b" && Token("b") == "b"
    ensures Fold("managedIdentifier") == "managedidentifier" && Token("managedIdentifier") == "managedidentifier"
  {
    hide Token;
    assert Fold("b") == "b" && Fold("managedIdentifier") == "managedidentifier";
    hide Fold;
    LettersToken("b", "b");
    LettersToken("managedIdentifier", "managedidentifier");
  }

  lemma HostCodeTokens()
    ensures Fold("hostCode") == "hostcode" && Token("hostCode") == "hostcode"
  {
    hide Token;
    assert Fold("hostCode") == "hostcode";
    hide Fold;
    LettersToken("hostCode", "hostcode");
  }

  /** Only the first of the old properties names what is required; the identifier does not. */
  lemma OldAliases(canonical: Canonical)
    requires canonical("code") == "code"
    ensures IsAlias(canonical, NEEDED, "Code") && !IsAlias(canonical, NEEDED, "b")
    ensures !IsAlias(canonical, NEEDED, "managedIdentifier")
  {
    hide Fold, Token;
    CodeTokens();
    OtherTokens();
    HostCodeTokens();
    assert "code"[0] == 'c' && "b"[0] == 'b' && "managedidentifier"[0] == 'm' && "hostcode"[0] == 'h';
    var names := Candidates(canonical, NEEDED);
    assert names == ["code", "code", "hostCode", "Code", "Code"] && names[0] == "code";
    hide Candidates;
    assert forall c :: c in names ==>
        (Fold(c) == "code" && Token(c) == "code") || (Fold(c) == "hostcode" && Token(c) == "hostcode");
  }

  lemma {:induction false} SetAllKeepsFirst(body: seq<Prop>, props: seq<Prop>)
    requires |body| >= 2 && forall i :: 0 <= i < |props| ==>
               props[i].name != body[0].name && props[i].name != body[1].name
    ensures |SetAll(body, props)| >= 2 && SetAll(body, props)[..2] == body[..2]
  {
    if props != [] {
      SetAllKeepsFirst(body, props[..|props| - 1]);
      var before, last := SetAll(body, props[..|props| - 1]), props[|props| - 1];
      assert before[0] == body[..2][0] && before[1] == before[1..][0] == body[..2][1];
      assert Set(before, last.name, last.value) ==
             [before[0]] + ([before[1]] + Set(before[1..][1..], last.name, last.value));
    }
  }

  /** Where the first property is deleted and the second one is not, the second one comes first. */
  lemma SecondComesFirst(canonical: Canonical, prefix: string, requirement: Requirement, body: seq<Prop>)
    requires Complete(requirement) && |body| >= 2 && body[1].name != requirement.payloadKey
    requires IsAlias(canonical, requirement, body[0].name) && !IsAlias(canonical, requirement, body[1].name)
    ensures WithRequirement(canonical, prefix, requirement, body) != []
    ensures WithRequirement(canonical, prefix, requirement, body)[0] == body[1]
  {
    hide IsAlias, CmdbuildPlaceholder;
    var rest := WithoutAliases(canonical, requirement, body[1..][1..]);
    assert body[1..][0] == body[1];
    assert WithoutAliases(canonical, requirement, body[1..]) == [body[1]] + rest;
    assert WithoutAliases(canonical, requirement, body) == [body[1]] + rest;
  }

  /** A body of two placeholders, both of which fit the class. */
  ghost predicate TwoPlaceholders(body: seq<Prop>, first: string, second: string, className: string) {
    && |body| == 2 && body[0].value.Str? && body[1].value.Str?
    && FirstPrefix(body[0].value) == Some(first) && FirstPrefix(body[1].value) == Some(second)
    && FitsClass(first, className) && FitsClass(second, className)
  }

  lemma TwoStay(body: seq<Prop>, first: string, second: string, className: string)
    requires TwoPlaceholders(body, first, second, className)
    ensures NormalProps(body, first, className) == body && FirstOfProps(body) == Some(first)
  {
    hide FitsClass, Placeholder, CmdbuildPlaceholder;
    var tail := body[1..];
    assert tail == [body[1]] && tail[1..] == [];
    assert NormalProps(tail, first, className) == tail;
    assert body == [body[0]] + tail;
  }

  ghost predicate NotFixed(name: string) {
    name != "source" && name != "className" && name != "eventType" && name != "cmdbuildEvent"
      && name != "managedIdentifier"
  }

  /** Where the only requirement deletes the first placeholder and not the second one, the second one shows. */
  lemma SecondShows(
    canonical: Canonical, identifier: string, slot: Slot, requirement: Requirement, body: seq<Prop>, first: string,
    second: string)
    requires TwoPlaceholders(body, first, second, slot.className) && slot.requirements == [requirement]
    requires Complete(requirement) && body[1].name != requirement.payloadKey && NotFixed(body[0].name)
             && NotFixed(body[1].name)
    requires IsAlias(canonical, requirement, body[0].name) && !IsAlias(canonical, requirement, body[1].name)
    ensures FirstOfProps(BodyFor(canonical, identifier, slot, first, body)) == Some(second)
  {
    hide IsAlias, FitsClass, NormalProps, SetAll, WithRequirement, Fixed, FirstPrefix, NotFixed, Complete;
    TwoStay(body, first, second, slot.className);
    FixedNames(slot, identifier);
    var fixed := SetAll(body, Fixed(slot, identifier));
    SetAllKeepsFirst(body, Fixed(slot, identifier));
    assert fixed[0] == fixed[..2][0] && fixed[1] == fixed[..2][1];
    SecondComesFirst(canonical, first, requirement, fixed);
    OneRequirement(canonical, identifier, slot, requirement, first, body);
  }

  lemma FixedNames(slot: Slot, identifier: string)
    ensures forall i :: 0 <= i < |Fixed(slot, identifier)| ==> !NotFixed(Fixed(slot, identifier)[i].name)
  {
  }

  lemma OneRequirement(
    canonical: Canonical, identifier: string, slot: Slot, requirement: Requirement, prefix: string, base: seq<Prop>)
    requires slot.requirements == [requirement]
    ensures BodyFor(canonical, identifier, slot, prefix, base) ==
            WithRequirement(canonical, prefix, requirement,
                            SetAll(NormalProps(base, prefix, slot.className), Fixed(slot, identifier)))
  {
    hide NormalProps, SetAll, WithRequirement, Fixed;
    var start := SetAll(NormalProps(base, prefix, slot.className), Fixed(slot, identifier));
    assert slot.requirements[..0] == [];
    assert WithRequirements(canonical, prefix, slot.requirements[..0], start) == start;
  }

  lemma {:induction false} FirstIsDeleted(
    canonical: Canonical, identifier: string, slot: Slot, requirement: Requirement, body: seq<Prop>, prefix: string)
    requires slot.requirements == [requirement] && Complete(requirement) && body != []
    requires IsAlias(canonical, requirement, body[0].name)
    ensures Content(BodyFor(canonical, identifier, slot, prefix, body)) != Content(body)
  {
    hide IsAlias, BodyFor, Content, Complete, CmdbuildPlaceholder;
    NoOwnAlias(canonical, requirement);
    var key := body[0].name;
    assert LastTouch(canonical, prefix, slot.requirements, key) == Some(None);
    hide LastTouch, LastOf, Fixed, Mapped, NormalProps;
    AtBody(canonical, identifier, slot, prefix, body, key);
    AtContent(BodyFor(canonical, identifier, slot, prefix, body), key);
    AtContent(body, key);
  }

  lemma NoOwnAlias(canonical: Canonical, requirement: Requirement)
    ensures !IsAlias(canonical, requirement, requirement.payloadKey)
  {
  }

  /** So the plan writes a body with another prefix first than it was planned with. */
  lemma PrefixLost(
    options: Options, canonical: Canonical, slot: Slot, requirement: Requirement, hooks: seq<Hook>, first: string,
    second: string)
    requires var current := CurrentFor(options, hooks, KeyOf(options, slot));
             && current.Some? && TwoPlaceholders(current.value.body, first, second, slot.className) && first != second
             && var body := current.value.body;
                && NotFixed(body[0].name) && NotFixed(body[1].name) && body[1].name != requirement.payloadKey
                && IsAlias(canonical, requirement, body[0].name) && !IsAlias(canonical, requirement, body[1].name)
    requires slot.requirements == [requirement] && Complete(requirement)
    ensures !PrefixKept(options, canonical, slot, hooks)
  {
    hide IsAlias, FitsClass, FirstOfProps, BodyFor, CurrentFor, KeyOf, DefaultsOf, Content, CodeOf, NotFixed, Complete;
    hide FirstPrefix, NormalProps;
    var current := CurrentFor(options, hooks, KeyOf(options, slot));
    var body := current.value.body;
    TwoStay(body, first, second, slot.className);
    assert PrefixOf(slot, current, DefaultsOf(options, hooks)) == first;
    SecondShows(canonical, options.managedIdentifier, slot, requirement, body, first, second);
    FirstIsDeleted(canonical, options.managedIdentifier, slot, requirement, body, first);
    assert slot.requirements[0] == requirement;
    var desired := DesiredFor(options, canonical, slot, hooks);
    assert desired.body == BodyFor(canonical, options.managedIdentifier, slot, first, body);
    hide TwoPlaceholders, Desired, DesiredFor, PrefixOf;
  }

  lemma OldIsTwo()
    ensures TwoPlaceholders(OLD_BODY, "card", "Server", "Server") && "card" != "Server"
  {
    hide Token, FirstPrefix;
    CardShown();
    ServerShown();
    CardFits("Server");
    assert "card"[0] == 'c' && "Server"[0] == 'S' && 'S' in "Server" && !IsSpace('S');
    assert !Blank("Server");
    hide Blank;
  }

  lemma PlainText(text: string)
    ensures text == "" || text[0] != '{' ==> IsPlain(text)
  {
  }

  lemma ServersReady(canonical: Canonical)
    requires canonical("code") == "code"
    ensures SlotReady(OWN, canonical, SERVERS)
  {
    hide IsAlias, IsPlain, CmdbuildPlaceholder;
    OldAliases(canonical);
    assert "id"[0] == 'i' && 'i' in "id" && !Blank("id");
    hide Blank;
    PlainText("id");
    PlainText("Server");
    PlainText("create");
    PlainText("card_create_after");
    assert "hostCode"[0] == 'h' && "managedIdentifier"[0] == 'm' && '}' !in "Code";
    assert forall r :: r in SERVERS.requirements ==> r == NEEDED;
  }

  lemma {:induction false} AtShort(body: seq<Prop>, key: string)
    requires forall i :: 0 <= i < |body| ==> |body[i].name| < |key|
    ensures At(body, key) == None
  {
    if body != [] {
      AtShort(body[1..], key);
    }
  }

  lemma OldBodyPlain()
    ensures Unique(OLD_BODY)
    ensures At(OLD_BODY, "managedIdentifier") == None && At(OLD_BODY, "ManagedIdentifier") == None
    ensures At(OLD_BODY, "targetTopic") == None && At(OLD_BODY, "TargetTopic") == None
  {
    var tail := OLD_BODY[1..];
    assert tail == [OLD_BODY[1]] && tail[1..] == [];
    assert |"Code"| == 4 && |"b"| == 1;
    assert Unique(tail);
    AtShort(tail, "Code");
    assert |OLD_BODY[0].name| == 4 && |OLD_BODY[1].name| == 1;
    AtShort(OLD_BODY, "managedIdentifier");
    AtShort(OLD_BODY, "ManagedIdentifier");
    AtShort(OLD_BODY, "targetTopic");
    AtShort(OLD_BODY, "TargetTopic");
  }

  /** A webhook with neither identifier nor topic is managed by its url. */
  lemma ManagedByUrl(options: Options, hook: Hook)
    requires At(hook.body, "managedIdentifier") == None && At(hook.body, "ManagedIdentifier") == None
    requires At(hook.body, "targetTopic") == None && At(hook.body, "TargetTopic") == None
    requires options.managedPrefix <= hook.code && options.ownsUrl(hook.url)
    ensures IsManaged(options, hook)
  {
    assert FirstText([None, None]) == None;
  }

  lemma OneHook(options: Options, hook: Hook, key: string)
    requires IsManaged(options, hook) && NormalItem(hook) == hook && RuleName(hook.code) == key && Unique(hook.body)
    ensures CurrentFor(options, [hook], key) == Some(hook) && HooksOwn(options, {key}, [hook])
  {
    hide IsManaged, RuleName, NormalItem, Unique;
    assert [hook][0] == hook;
  }

  lemma OldHookFound()
    ensures CurrentFor(OWN, [OLD_HOOK], KeyOf(OWN, SERVERS)) == Some(OLD_HOOK)
    ensures HooksOwn(OWN, {KeyOf(OWN, SERVERS)}, [OLD_HOOK])
  {
    hide At, RuleName, Unique, IsManaged, CurrentFor, HooksOwn;
    OldBodyPlain();
    assert Fold("post") == "post";
    hide Fold;
    ManagedByUrl(OWN, OLD_HOOK);
    OneHook(OWN, OLD_HOOK, KeyOf(OWN, SERVERS));
  }

  lemma OldPrefixLost(canonical: Canonical)
    requires canonical("code") == "code"
    ensures !PrefixKept(OWN, canonical, SERVERS, [OLD_HOOK])
  {
    hide CurrentFor, KeyOf, HooksOwn, PrefixKept, IsAlias, TwoPlaceholders, CodeOf;
    OldHookFound();
    OldIsTwo();
    OldAliases(canonical);
    assert "hostCode"[0] == 'h' && "Code"[0] == 'C' && |"b"| == 1;
    assert NotFixed("Code") && NotFixed("b");
    hide NotFixed;
    PrefixLost(OWN, canonical, SERVERS, NEEDED, [OLD_HOOK], "card", "Server");
  }

  lemma OneSlotOnly(options: Options, canonical: Canonical, slot: Slot, hooks: seq<Hook>)
    requires SlotReady(options, canonical, slot) && HooksOwn(options, {KeyOf(options, slot)}, hooks)
    ensures OnlyRemovals(Plan(options, canonical, [slot], AfterPlan(hooks, Plan(options, canonical, [slot], hooks))))
            <==> PrefixKept(options, canonical, slot, hooks)
  {
    hide SlotReady, KeyOf, HooksOwn, PrefixKept, AfterPlan, Plan, OnlyRemovals;
    assert [slot][0] == slot;
    assert Keys(options, [slot]) == {KeyOf(options, slot)};
    hide Keys;
    ReconciliationSettlesExactly(options, canonical, [slot], hooks);
  }

  /** A webhook of this service whose every update changes the first prefix, so that planning again updates it again. */
  lemma PrefixSwitches(canonical: Canonical)
    requires canonical("code") == "code"
    ensures SlotReady(OWN, canonical, SERVERS) && CurrentFor(OWN, [OLD_HOOK], KeyOf(OWN, SERVERS)) == Some(OLD_HOOK)
    ensures var after := AfterPlan([OLD_HOOK], Plan(OWN, canonical, [SERVERS], [OLD_HOOK]));
            !OnlyRemovals(Plan(OWN, canonical, [SERVERS], after))
  {
    hide SlotReady, CurrentFor, KeyOf, HooksOwn, PrefixKept, AfterPlan, Plan, OnlyRemovals;
    ServersReady(canonical);
    OldHookFound();
    OldPrefixLost(canonical);
    OneSlotOnly(OWN, canonical, SERVERS, [OLD_HOOK]);
  }
}
