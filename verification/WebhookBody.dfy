/** The body of a CMDBuild webhook: what is kept of the body there is, which placeholders it holds, and the
    fields the conversion rules require. */
module WebhookBody {
  import opened Text
  import opened JsonModel

  datatype Requirement = Requirement(
    fieldKey: string, payloadKey: string, source: string, cmdbAttribute: string, cmdbPath: string,
    placeholderAttribute: string, requiredByRules: seq<string>)

  /** The table of field spellings. */
  type Canonical = string -> string

  /** A class and an event, with the fields a webhook for them has to send. */
  datatype Slot = Slot(className: string, eventType: string, cmdbuildEvent: string, requirements: seq<Requirement>)

  // ---------------------------------------------------------------- placeholders

  function ColonAt(s: string): (i: nat)
    ensures i <= |s| && (i < |s| ==> s[i] == ':') && forall j :: 0 <= j < i ==> s[j] != ':'
  {
    if s == [] || s[0] == ':' then 0 else 1 + ColonAt(s[1..])
  }

  /** The prefix and the attribute of a text of the form {prefix:attribute}. */
  function Placeholder(s: string): Option<(string, string)> {
    if |s| < 2 || s[0] != '{' || s[|s| - 1] != '}' then None
    else
      var inner := s[1..|s| - 1];
      var i := ColonAt(inner);
      if '}' in inner || i == 0 || i + 1 >= |inner| then None else Some((inner[..i], inner[i + 1..]))
  }

  function CmdbuildPlaceholder(prefix: string, attribute: string): string {
    ['{'] + prefix + [':'] + attribute + ['}']
  }

  predicate WellFormed(prefix: string) {
    prefix != "" && ':' !in prefix && '}' !in prefix
  }

  lemma PlaceholderParses(prefix: string, attribute: string)
    requires WellFormed(prefix)
    ensures Placeholder(CmdbuildPlaceholder(prefix, attribute)) ==
            if attribute == "" || '}' in attribute then None else Some((prefix, attribute))
  {
    var s := CmdbuildPlaceholder(prefix, attribute);
    var inner := s[1..|s| - 1];
    assert inner == prefix + [':'] + attribute;
    assert inner[|prefix|] == ':';
    assert forall j :: 0 <= j < |prefix| ==> inner[j] == prefix[j] && prefix[j] in prefix;
    assert ColonAt(inner) == |prefix|;
    assert inner[..|prefix|] == prefix && inner[|prefix| + 1..] == attribute;
    assert '}' in inner <==> '}' in attribute;
  }

  lemma ParsedPrefix(s: string)
    requires Placeholder(s).Some?
    ensures WellFormed(Placeholder(s).value.0)
    ensures Placeholder(s).value.1 != "" && '}' !in Placeholder(s).value.1
  {
    var inner := s[1..|s| - 1];
    var i := ColonAt(inner);
    assert forall c :: c in inner[..i] || c in inner[i + 1..] ==> c in inner;
  }

  predicate FitsClass(prefix: string, className: string) {
    !Blank(prefix) && (Token(prefix) == "card" || Token(prefix) == Token(className))
  }

  /** The prefix a webhook goes on with: its own, else the one of the other webhooks, else card. */
  function PrefixForClass(current: string, fallback: string, className: string): string {
    if FitsClass(current, className) then current
    else if FitsClass(fallback, className) then fallback
    else "card"
  }

  function FirstPrefix(value: Json): Option<string> {
    match value
    case Str(text) => if Placeholder(text).Some? then Some(Placeholder(text).value.0) else None
    case Arr(items) => FirstOfItems(items)
    case Obj(props) => FirstOfProps(props)
    case _ => None
  }

  function FirstOfItems(items: seq<Json>): Option<string> {
    if items == [] then None else OrElse(FirstPrefix(items[0]), FirstOfItems(items[1..]))
  }

  /** The prefix of the first placeholder of a body. */
  function FirstOfProps(props: seq<Prop>): Option<string> {
    if props == [] then None else OrElse(FirstPrefix(props[0].value), FirstOfProps(props[1..]))
  }

  function Normal(value: Json, prefix: string, className: string): Json {
    match value
    case Str(text) =>
      var parsed := Placeholder(text);
      if parsed.None? || FitsClass(parsed.value.0, className) then value
      else Str(CmdbuildPlaceholder(prefix, parsed.value.1))
    case Arr(items) => Arr(NormalItems(items, prefix, className))
    case Obj(props) => Obj(NormalProps(props, prefix, className))
    case _ => value
  }

  function NormalItems(items: seq<Json>, prefix: string, className: string): seq<Json> {
    if items == [] then [] else [Normal(items[0], prefix, className)] + NormalItems(items[1..], prefix, className)
  }

  /** A body whose placeholders all have a prefix that fits the class. */
  function NormalProps(props: seq<Prop>, prefix: string, className: string): seq<Prop> {
    if props == [] then []
    else [Prop(props[0].name, Normal(props[0].value, prefix, className))] + NormalProps(props[1..], prefix, className)
  }

  // ---------------------------------------------------------------- building the body

  /** What a body says, whatever the order. */
  function Content(body: seq<Prop>): map<string, Json> {
    if body == [] then map[] else Content(body[1..])[body[0].name := body[0].value]
  }

  function At(body: seq<Prop>, key: string): Option<Json> {
    if body == [] then None else if body[0].name == key then Some(body[0].value) else At(body[1..], key)
  }

  function Set(body: seq<Prop>, name: string, value: Json): seq<Prop> {
    if body == [] then [Prop(name, value)]
    else if body[0].name == name then [Prop(name, value)] + body[1..]
    else [body[0]] + Set(body[1..], name, value)
  }

  function Candidates(canonical: Canonical, requirement: Requirement): seq<string> {
    [requirement.fieldKey, canonical(requirement.fieldKey), requirement.source, requirement.cmdbAttribute,
     requirement.placeholderAttribute]
  }

  /** Another name of what a requirement sends. */
  predicate IsAlias(canonical: Canonical, requirement: Requirement, key: string) {
    && Fold(key) != Fold(requirement.payloadKey)
    && exists c :: c in Candidates(canonical, requirement) && c != "" &&
                   (Fold(key) == Fold(c) || Token(key) == Token(c))
  }

  function WithoutAliases(canonical: Canonical, requirement: Requirement, body: seq<Prop>): seq<Prop> {
    if body == [] then []
    else
      (if IsAlias(canonical, requirement, body[0].name) then [] else [body[0]]) +
      WithoutAliases(canonical, requirement, body[1..])
  }

  predicate Complete(requirement: Requirement) {
    requirement.payloadKey != "" && requirement.placeholderAttribute != ""
  }

  function WithRequirement(canonical: Canonical, prefix: string, requirement: Requirement, body: seq<Prop>): seq<Prop> {
    if !Complete(requirement) then body
    else Set(WithoutAliases(canonical, requirement, body), requirement.payloadKey,
             Str(CmdbuildPlaceholder(prefix, requirement.placeholderAttribute)))
  }

  function WithRequirements(
    canonical: Canonical, prefix: string, requirements: seq<Requirement>, body: seq<Prop>): seq<Prop> {
    if requirements == [] then body
    else WithRequirement(canonical, prefix, requirements[|requirements| - 1],
                         WithRequirements(canonical, prefix, requirements[..|requirements| - 1], body))
  }

  function Fixed(slot: Slot, identifier: string): seq<Prop> {
    [Prop("source", Str("cmdbuild")), Prop("className", Str(slot.className)), Prop("eventType", Str(slot.eventType)),
     Prop("cmdbuildEvent", Str(slot.cmdbuildEvent))] +
    (if identifier == "" then [] else [Prop("managedIdentifier", Str(identifier))])
  }

  function SetAll(body: seq<Prop>, props: seq<Prop>): seq<Prop> {
    if props == [] then body
    else Set(SetAll(body, props[..|props| - 1]), props[|props| - 1].name, props[|props| - 1].value)
  }

  /** webhookBodyForRequirements. */
  function BodyFor(canonical: Canonical, identifier: string, slot: Slot, prefix: string, base: seq<Prop>): seq<Prop> {
    WithRequirements(canonical, prefix, slot.requirements,
                     SetAll(NormalProps(base, prefix, slot.className), Fixed(slot, identifier)))
  }

  /** The deletions of removeWebhookBodyAliasFields. */
  method RemoveAliasFields(canonical: Canonical, body: seq<Prop>, requirement: Requirement) returns (kept: seq<Prop>)
    ensures kept == WithoutAliases(canonical, requirement, body)
  {
    hide IsAlias;
    kept := body;
    var i := 0;
    ghost var done: seq<Prop> := [];
    assert body == done + kept[i..];
    while i < |kept|
      invariant i <= |kept| && |done| <= |body| && body == done + kept[i..]
      invariant kept[..i] == WithoutAliases(canonical, requirement, done)
      decreases |kept| - i
    {
      var prop := kept[i];
      WithoutAliasesOneMore(canonical, requirement, done, prop);
      done := done + [prop];
      if IsAlias(canonical, requirement, prop.name) {
        var rest := kept[i + 1..];
        assert kept[i..] == [prop] + rest;
        kept := kept[..i] + rest;
        assert kept[i..] == rest;
      } else {
        assert kept[i..] == [prop] + kept[i + 1..];
        assert kept[..i + 1] == kept[..i] + [prop];
        i := i + 1;
      }
    }
    assert done == body && kept[..i] == kept;
  }

  lemma {:induction false} WithoutAliasesOneMore(
    canonical: Canonical, requirement: Requirement, body: seq<Prop>, prop: Prop)
    ensures WithoutAliases(canonical, requirement, body + [prop]) ==
            WithoutAliases(canonical, requirement, body) + if IsAlias(canonical, requirement, prop.name) then []
              else [prop]
  {
    hide IsAlias;
    if body == [] {
      assert [prop][1..] == [];
    } else {
      assert (body + [prop])[1..] == body[1..] + [prop];
      WithoutAliasesOneMore(canonical, requirement, body[1..], prop);
    }
  }

  /** The assignments of webhookBodyForRequirements. */
  method BuildBody(canonical: Canonical, identifier: string, slot: Slot, prefix: string, base: seq<Prop>)
    returns (body: seq<Prop>)
    ensures body == BodyFor(canonical, identifier, slot, prefix, base)
  {
    hide Set, IsAlias, WithoutAliases, NormalProps, CmdbuildPlaceholder;
    body := NormalProps(base, prefix, slot.className);
    var fixed := Fixed(slot, identifier);
    ghost var normal := body;
    for i := 0 to |fixed|
      invariant body == SetAll(normal, fixed[..i])
    {
      assert fixed[..i + 1][..i] == fixed[..i];
      body := Set(body, fixed[i].name, fixed[i].value);
    }
    assert fixed[..|fixed|] == fixed;
    ghost var start := body;
    hide Fixed, SetAll;
    for i := 0 to |slot.requirements|
      invariant body == WithRequirements(canonical, prefix, slot.requirements[..i], start)
    {
      var requirement := slot.requirements[i];
      assert slot.requirements[..i + 1][..i] == slot.requirements[..i];
      if Complete(requirement) {
        body := RemoveAliasFields(canonical, body, requirement);
        body := Set(body, requirement.payloadKey, Str(CmdbuildPlaceholder(prefix, requirement.placeholderAttribute)));
      }
    }
    assert slot.requirements[..|slot.requirements|] == slot.requirements;
  }
}
