/** Reconciling the webhooks in CMDBuild with those the conversion rules need. What is needed depends on what is
    there: descriptions, urls, headers and extra body fields are kept, and new webhooks are made like old ones. */
module WebhookReconciler {
  import opened Text
  import opened JsonModel
  import opened WebhookBody

  datatype Hook = Hook(
    code: string, description: string, event: string, target: string, httpMethod: string, url: string,
    headers: map<string, string>, body: seq<Prop>, language: string, active: bool)

  /** The options, with their defaults filled in, and which urls this service owns. */
  datatype Options = Options(
    managedPrefix: string, codeSegment: string, managedIdentifier: string, defaultUrl: string, ownsUrl: string -> bool)

  function WithoutSlashes(url: string): string {
    if url != "" && url[|url| - 1] == '/' then WithoutSlashes(url[..|url| - 1]) else url
  }

  /** How urls are compared when asking whose they are. */
  function NormalUrl(url: string): string {
    Fold(WithoutSlashes(Trim(url)))
  }

  const FALLBACK_URL := "http://192.168.202.35:5080/webhooks/cmdbuild"

  // ---------------------------------------------------------------- codes

  predicate IsNameChar(c: char) {
    'A' <= c <= 'Z' || 'a' <= c <= 'z' || '0' <= c <= '9' || c == '_' || c == '.' || c == '-'
  }

  /** Runs of other characters as one dash each. */
  function Dashed(s: string, inRun: bool): string {
    if s == [] then []
    else if IsNameChar(s[0]) then [s[0]] + Dashed(s[1..], false)
    else (if inRun then [] else ['-']) + Dashed(s[1..], true)
  }

  function StripDashes(s: string): string {
    if s != [] && s[0] == '-' then StripDashes(s[1..])
    else if s != [] && s[|s| - 1] == '-' then StripDashes(s[..|s| - 1])
    else s
  }

  function RuleName(s: string): string {
    Fold(StripDashes(Dashed(s, false)))
  }

  function CodeOf(options: Options, slot: Slot): string {
    options.managedPrefix + (if options.codeSegment == "" then "" else RuleName(options.codeSegment) + "-") +
    RuleName(slot.className) + "-" + RuleName(slot.eventType)
  }

  function KeyOf(options: Options, slot: Slot): string {
    RuleName(CodeOf(options, slot))
  }

  // ---------------------------------------------------------------- whose webhook it is

  /** String(value) of JavaScript. */
  function ScriptText(value: Json): string {
    match value
    case Str(text) => text
    case Num(raw) => raw
    case Bool(flag) => if flag then "true" else "false"
    case Arr(items) => Joined(items)
    case Obj(_) => "[object Object]"
    case _ => ""
  }

  function Joined(items: seq<Json>): string {
    if items == [] then "" else ScriptText(items[0]) + (if |items| == 1 then "" else ",") + Joined(items[1..])
  }

  function FirstText(values: seq<Option<Json>>): Option<Json> {
    if values == [] then None
    else if values[0].Some? && !Blank(ScriptText(values[0].value)) then values[0]
    else FirstText(values[1..])
  }

  predicate Truthy(value: Option<Json>) {
    value.Some? &&
    match value.value
    case Undefined => false
    case Null => false
    case Bool(flag) => flag
    case Num(raw) => exists i :: 0 <= i < |raw| && '1' <= raw[i] <= '9' && 'e' !in raw[..i] && 'E' !in raw[..i]
    case Str(text) => text != ""
    case _ => true
  }

  predicate IsManaged(options: Options, hook: Hook) {
    var identifier := FirstText([At(hook.body, "managedIdentifier"), At(hook.body, "ManagedIdentifier")]);
    && options.managedPrefix <= hook.code
    && if Truthy(identifier) then identifier == Some(Str(options.managedIdentifier))
       else
         var topic := FirstText([At(hook.body, "targetTopic"), At(hook.body, "TargetTopic")]);
         !Truthy(topic) && options.ownsUrl(hook.url)
  }

  function NormalItem(hook: Hook): Hook {
    hook.(httpMethod := Fold(hook.httpMethod))
  }

  /** The managed webhook with a code, the last one if there are several. */
  function CurrentFor(options: Options, hooks: seq<Hook>, key: string): Option<Hook> {
    if hooks == [] then None
    else
      var last := NormalItem(hooks[|hooks| - 1]);
      if IsManaged(options, last) && RuleName(last.code) == key then Some(last)
      else CurrentFor(options, hooks[..|hooks| - 1], key)
  }

  // ---------------------------------------------------------------- what is desired

  datatype Defaults = Defaults(httpMethod: string, url: string, headers: map<string, string>, language: string,
                               prefix: string)

  function Managed(options: Options, hooks: seq<Hook>): seq<Hook> {
    if hooks == [] then []
    else
      var first := NormalItem(hooks[0]);
      (if IsManaged(options, first) then [first] else []) + Managed(options, hooks[1..])
  }

  function FirstWithUrl(hooks: seq<Hook>): Option<Hook> {
    if hooks == [] then None else if hooks[0].url != "" then Some(hooks[0]) else FirstWithUrl(hooks[1..])
  }

  function OrText(left: string, right: string): string {
    if left != "" then left else right
  }

  function DefaultUrl(options: Options): string {
    OrText(options.defaultUrl, FALLBACK_URL)
  }

  function DefaultsOf(options: Options, hooks: seq<Hook>): Defaults {
    var managed := Managed(options, hooks);
    var sample := OrElse(FirstWithUrl(managed), if managed == [] then None else Some(managed[0]));
    match sample
    case None => Defaults("post", DefaultUrl(options), map[], "", "card")
    case Some(hook) =>
      Defaults(OrText(hook.httpMethod, "post"), OrText(hook.url, DefaultUrl(options)), hook.headers, hook.language,
               OrElse(FirstOfProps(hook.body), Some("card")).value)
  }

  function BaseOf(current: Option<Hook>): seq<Prop> {
    if current.Some? then current.value.body else []
  }

  function PrefixOf(slot: Slot, current: Option<Hook>, defaults: Defaults): string {
    PrefixForClass(TextOf(FirstOfProps(BaseOf(current))), defaults.prefix, slot.className)
  }

  function Described(slot: Slot): string {
    "cmdb2monitoring " + slot.className + " " + slot.eventType
  }

  /** The webhook a slot should have, given the one it has. */
  function Desired(
    options: Options, canonical: Canonical, slot: Slot, current: Option<Hook>, defaults: Defaults): Hook {
    var body := BodyFor(canonical, options.managedIdentifier, slot, PrefixOf(slot, current, defaults), BaseOf(current));
    NormalItem(
      match current
      case None =>
        Hook(CodeOf(options, slot), Described(slot), slot.cmdbuildEvent, slot.className, defaults.httpMethod,
             defaults.url,
             defaults.headers, body, defaults.language, true)
      case Some(hook) =>
        Hook(CodeOf(options, slot), OrText(hook.description, Described(slot)), slot.cmdbuildEvent, slot.className,
             OrText(hook.httpMethod, defaults.httpMethod), OrText(hook.url, defaults.url), hook.headers, body,
             hook.language,
             hook.active))
  }

  function DesiredFor(options: Options, canonical: Canonical, slot: Slot, hooks: seq<Hook>): Hook {
    Desired(options, canonical, slot, CurrentFor(options, hooks, KeyOf(options, slot)), DefaultsOf(options, hooks))
  }

  // ---------------------------------------------------------------- what there is to do

  datatype Comparable = Comparable(
    description: string, event: string, target: string, httpMethod: string, url: string, headers: map<string, string>,
    body: map<string, Json>, language: string, active: bool)

  function ComparableHeaders(headers: map<string, string>): map<string, string> {
    map name | name in headers && Fold(name) != "authorization" :: headers[name]
  }

  function ComparableOf(hook: Hook): Comparable {
    Comparable(hook.description, hook.event, hook.target, Fold(hook.httpMethod), hook.url,
               ComparableHeaders(hook.headers),
               Content(hook.body), hook.language, hook.active)
  }

  datatype Operation = Create(desired: Hook) | Update(current: Hook, desired: Hook) | Delete(current: Hook)

  function SlotOperation(current: Option<Hook>, desired: Hook): seq<Operation> {
    match current
    case None => [Create(desired)]
    case Some(hook) => if ComparableOf(hook) == ComparableOf(desired) then [] else [Update(hook, desired)]
  }

  function SlotOperations(options: Options, canonical: Canonical, slots: seq<Slot>, hooks: seq<Hook>): seq<Operation> {
    if slots == [] then []
    else
      var slot := slots[|slots| - 1];
      SlotOperations(options, canonical, slots[..|slots| - 1], hooks) +
      SlotOperation(CurrentFor(options, hooks, KeyOf(options, slot)), DesiredFor(options, canonical, slot, hooks))
  }

  function Keys(options: Options, slots: seq<Slot>): set<string> {
    set slot | slot in slots :: KeyOf(options, slot)
  }

  function DeleteOperations(options: Options, keys: set<string>, hooks: seq<Hook>): seq<Operation> {
    if hooks == [] then []
    else
      var last := NormalItem(hooks[|hooks| - 1]);
      DeleteOperations(options, keys, hooks[..|hooks| - 1]) +
      if IsManaged(options, last) && RuleName(last.code) !in keys then [Delete(last)] else []
  }

  /** The plan; deletes come unselected. */
  function Plan(options: Options, canonical: Canonical, slots: seq<Slot>, hooks: seq<Hook>): seq<Operation> {
    SlotOperations(options, canonical, slots, hooks) + DeleteOperations(options, Keys(options, slots), hooks)
  }

  /** The loops of buildCmdbuildWebhookOperations, before the operations are sorted. */
  method BuildOperations(options: Options, canonical: Canonical, slots: seq<Slot>, hooks: seq<Hook>)
    returns (operations: seq<Operation>)
    ensures operations == Plan(options, canonical, slots, hooks)
  {
    hide IsManaged, RuleName, NormalItem, Desired, DefaultsOf, ComparableOf, CodeOf;
    var currentByCode: map<string, Hook> := map[];
    for i := 0 to |hooks|
      invariant forall key ::
                  CurrentFor(options, hooks[..i], key) ==
                  if key in currentByCode then Some(currentByCode[key]) else None
    {
      assert hooks[..i + 1][..i] == hooks[..i];
      var item := NormalItem(hooks[i]);
      if IsManaged(options, item) {
        currentByCode := currentByCode[RuleName(item.code) := item];
      }
    }
    assert hooks[..|hooks|] == hooks;
    var defaults := DefaultsOf(options, hooks);
    operations := [];
    for i := 0 to |slots|
      invariant operations == SlotOperations(options, canonical, slots[..i], hooks)
    {
      assert slots[..i + 1][..i] == slots[..i];
      var key := KeyOf(options, slots[i]);
      var current := if key in currentByCode then Some(currentByCode[key]) else None;
      assert current == CurrentFor(options, hooks, key);
      var desired := Desired(options, canonical, slots[i], current, defaults);
      if current.None? {
        operations := operations + [Create(desired)];
      } else if ComparableOf(current.value) != ComparableOf(desired) {
        operations := operations + [Update(current.value, desired)];
      }
    }
    assert slots[..|slots|] == slots;
    var keys := Keys(options, slots);
    ghost var writes := operations;
    for i := 0 to |hooks|
      invariant operations == writes + DeleteOperations(options, keys, hooks[..i])
    {
      assert hooks[..i + 1][..i] == hooks[..i];
      var item := NormalItem(hooks[i]);
      if IsManaged(options, item) && RuleName(item.code) !in keys {
        operations := operations + [Delete(item)];
      }
    }
  }

  // ---------------------------------------------------------------- carrying it out

  /** The webhook with a code, the last one if there are several, becomes another. */
  function Replaced(hooks: seq<Hook>, key: string, hook: Hook): seq<Hook> {
    if hooks == [] then []
    else if RuleName(hooks[|hooks| - 1].code) == key then hooks[..|hooks| - 1] + [hook]
    else Replaced(hooks[..|hooks| - 1], key, hook) + [hooks[|hooks| - 1]]
  }

  function Applied(hooks: seq<Hook>, operation: Operation): seq<Hook> {
    match operation
    case Create(desired) => hooks + [desired]
    case Update(_, desired) => Replaced(hooks, RuleName(desired.code), desired)
    case Delete(_) => hooks
  }

  /** CMDBuild after the selected operations of a plan. */
  function AfterPlan(hooks: seq<Hook>, operations: seq<Operation>): seq<Hook> {
    if operations == [] then hooks
    else Applied(AfterPlan(hooks, operations[..|operations| - 1]), operations[|operations| - 1])
  }
}
