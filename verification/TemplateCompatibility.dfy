/** The indexes by which the validator finds templates that clash. */
module TemplateCompatibility {
  import opened Text
  import opened ZabbixApi
  import opened RequestValidator

  datatype KeySource = ItemKeys | RuleKeys

  function KeysOf(template: TemplateInfo, source: KeySource): seq<string> {
    if source.ItemKeys? then template.itemKeys else template.ruleKeys
  }

  predicate HasKey(keys: seq<string>, key: string) {
    exists k :: k in keys && !Blank(k) && Fold(k) == key
  }

  function Owner(template: TemplateInfo): (string, string) {
    (template.templateId, template.name)
  }

  /** The owners of a key among some templates. */
  function Owners(templates: seq<TemplateInfo>, source: KeySource, key: string): set<(string, string)> {
    if templates == [] then {}
    else
      var last := templates[|templates| - 1];
      Owners(templates[..|templates| - 1], source, key) + if HasKey(KeysOf(last, source), key) then {Owner(last)}
        else {}
  }

  type Index = map<string, set<(string, string)>>

  /** An index holds, for every key, the owners from some templates and, for the keys seen so far, of one more. */
  ghost predicate Indexes(
    index: Index, templates: seq<TemplateInfo>, source: KeySource, seen: seq<string>, owner: (string, string))
  {
    forall key ::
      (if key in index then index[key] else {}) == Owners(templates, source, key) + if HasKey(seen, key) then {owner}
        else {}
  }

  lemma HasOneMore(keys: seq<string>, k: string, key: string)
    ensures HasKey(keys + [k], key) <==> HasKey(keys, key) || (!Blank(k) && Fold(k) == key)
  {
    hide Blank, Fold;
    assert k in keys + [k];
    assert forall x :: x in keys + [k] <==> x in keys || x == k;
  }

  lemma NextKey(
    index: Index, templates: seq<TemplateInfo>, source: KeySource, seen: seq<string>, owner: (string, string),
    k: string)
    requires Indexes(index, templates, source, seen, owner)
    ensures var next := if Blank(k) then index
                        else index[Fold(k) := (if Fold(k) in index then index[Fold(k)] else {}) + {owner}];
            Indexes(next, templates, source, seen + [k], owner)
  {
    hide Blank, Fold, HasKey, Owners;
    forall key
      ensures HasKey(seen + [k], key) <==> HasKey(seen, key) || (!Blank(k) && Fold(k) == key)
    {
      HasOneMore(seen, k, key);
    }
  }

  lemma NextTemplate(index: Index, templates: seq<TemplateInfo>, source: KeySource, template: TemplateInfo)
    requires Indexes(index, templates, source, KeysOf(template, source), Owner(template))
    ensures forall owner :: Indexes(index, templates + [template], source, [], owner)
  {
    hide Blank, Fold, KeysOf;
    assert (templates + [template])[..|templates|] == templates;
  }

  /** FindDuplicateKeyConflicts: the keys with more than one owner. */
  method FindDuplicateKeyConflicts(templates: seq<TemplateInfo>, source: KeySource) returns (conflicts: set<string>)
    ensures forall key :: key in conflicts <==> |Owners(templates, source, key)| > 1
  {
    hide Blank, Fold, HasKey, KeysOf;
    var ownersByKey: Index := map[];
    assert forall key :: !HasKey([], key) by { NoKey(); }
    for i := 0 to |templates|
      invariant forall owner :: Indexes(ownersByKey, templates[..i], source, [], owner)
    {
      var template := templates[i];
      var keys := KeysOf(template, source);
      assert keys[..0] == [];
      for j := 0 to |keys|
        invariant Indexes(ownersByKey, templates[..i], source, keys[..j], Owner(template))
      {
        NextKey(ownersByKey, templates[..i], source, keys[..j], Owner(template), keys[j]);
        assert keys[..j + 1] == keys[..j] + [keys[j]];
        if !Blank(keys[j]) {
          var owners := if Fold(keys[j]) in ownersByKey then ownersByKey[Fold(keys[j])] else {};
          ownersByKey := ownersByKey[Fold(keys[j]) := owners + {Owner(template)}];
        }
      }
      assert keys[..|keys|] == keys;
      NextTemplate(ownersByKey, templates[..i], source, template);
      assert templates[..i + 1] == templates[..i] + [template];
    }
    assert templates[..|templates|] == templates;
    conflicts := set key | key in ownersByKey && |ownersByKey[key]| > 1;
    assert Indexes(ownersByKey, templates, source, [], ("", ""));
  }

  lemma NoKey()
    ensures forall key :: !HasKey([], key)
  {
  }

  // ---------------------------------------------------------------- what a conflict means

  lemma {:induction false} OwnersElements(
    templates: seq<TemplateInfo>, source: KeySource, key: string, owner: (string, string))
    ensures owner in Owners(templates, source, key) <==>
            exists t :: t in templates && HasKey(KeysOf(t, source), key) && Owner(t) == owner
  {
    hide HasKey, KeysOf;
    if templates != [] {
      var front, last := templates[..|templates| - 1], templates[|templates| - 1];
      assert templates == front + [last];
      OwnersElements(front, source, key, owner);
    }
  }

  lemma {:induction false} TwoElements<T>(s: set<T>) returns (a: T, b: T)
    requires |s| > 1
    ensures a in s && b in s && a != b
  {
    a :| a in s;
    var rest := s - {a};
    assert |rest| == |s| - 1;
    b :| b in rest;
  }

  lemma MoreThanOne<T>(s: set<T>, a: T, b: T)
    requires a in s && b in s && a != b
    ensures |s| > 1
  {
    assert b in s - {a};
    assert |s - {a}| == |s| - 1;
  }

  /** Two templates of different owners that share a key. */
  ghost predicate SomeSharedKey(templates: seq<TemplateInfo>, source: KeySource) {
    exists left, right :: left in templates && right in templates && Owner(left) != Owner(right)
                          && SharesKey(KeysOf(left, source), KeysOf(right, source))
  }

  lemma ShareHas(left: seq<string>, right: seq<string>)
    ensures SharesKey(left, right) <==> exists key :: HasKey(left, key) && HasKey(right, key)
  {
    hide Fold;
    if SharesKey(left, right) {
      var a, b :| a in left && b in right && !Blank(a) && Same(a, b);
      SameBlank(a, b);
      assert HasKey(left, Fold(a)) && HasKey(right, Fold(a));
    }
    if key :| HasKey(left, key) && HasKey(right, key) {
      var a :| a in left && !Blank(a) && Fold(a) == key;
      var b :| b in right && !Blank(b) && Fold(b) == key;
      assert Same(a, b);
    }
  }

  lemma OwnersShare(templates: seq<TemplateInfo>, source: KeySource, key: string)
    requires |Owners(templates, source, key)| > 1
    ensures SomeSharedKey(templates, source)
  {
    hide HasKey, KeysOf, SharesKey, Owner;
    var a, b := TwoElements(Owners(templates, source, key));
    OwnersElements(templates, source, key, a);
    OwnersElements(templates, source, key, b);
    var left :| left in templates && HasKey(KeysOf(left, source), key) && Owner(left) == a;
    var right :| right in templates && HasKey(KeysOf(right, source), key) && Owner(right) == b;
    ShareHas(KeysOf(left, source), KeysOf(right, source));
  }

  lemma SharedHasOwners(templates: seq<TemplateInfo>, source: KeySource) returns (key: string)
    requires SomeSharedKey(templates, source)
    ensures |Owners(templates, source, key)| > 1
  {
    hide HasKey, KeysOf, SharesKey, Owner;
    var left, right :| left in templates && right in templates && Owner(left) != Owner(right)
                       && SharesKey(KeysOf(left, source), KeysOf(right, source));
    ShareHas(KeysOf(left, source), KeysOf(right, source));
    key :| HasKey(KeysOf(left, source), key) && HasKey(KeysOf(right, source), key);
    OwnersElements(templates, source, key, Owner(left));
    OwnersElements(templates, source, key, Owner(right));
    MoreThanOne(Owners(templates, source, key), Owner(left), Owner(right));
  }

  /** Some key has two owners exactly when two templates of different owners share a key. */
  lemma KeyConflicts(templates: seq<TemplateInfo>, source: KeySource, conflicts: set<string>)
    requires forall key :: key in conflicts <==> |Owners(templates, source, key)| > 1
    ensures conflicts != {} <==> SomeSharedKey(templates, source)
  {
    hide SomeSharedKey;
    if conflicts != {} {
      var key :| key in conflicts;
      OwnersShare(templates, source, key);
    }
    if SomeSharedKey(templates, source) {
      var key := SharedHasOwners(templates, source);
      assert key in conflicts;
    }
  }

  // ---------------------------------------------------------------- inventory links

  predicate IsLinked(item: InventoryItem) {
    !Blank(item.link) && Fold(item.link) != "0"
  }

  predicate HasLink(items: seq<InventoryItem>, link: string) {
    exists item :: item in items && IsLinked(item) && Fold(item.link) == link
  }

  /** The ids, up to case, of the templates with items that fill an inventory field. */
  function LinkOwners(templates: seq<TemplateInfo>, link: string): set<string> {
    if templates == [] then {}
    else
      var last := templates[|templates| - 1];
      LinkOwners(templates[..|templates| - 1], link) + if HasLink(last.inventory, link) then {Fold(last.templateId)}
        else {}
  }

  type LinkIndex = map<string, set<string>>

  ghost predicate LinkIndexes(index: LinkIndex, templates: seq<TemplateInfo>, seen: seq<InventoryItem>, owner: string) {
    forall link ::
      (if link in index then index[link] else {}) == LinkOwners(templates, link) + if HasLink(seen, link) then {owner}
        else {}
  }

  lemma NextLink(
    index: LinkIndex, templates: seq<TemplateInfo>, seen: seq<InventoryItem>, owner: string, item: InventoryItem)
    requires LinkIndexes(index, templates, seen, owner)
    ensures var next := if !IsLinked(item) then index
                        else index[Fold(item.link) :=
                                   (if Fold(item.link) in index then index[Fold(item.link)] else {}) + {owner}];
            LinkIndexes(next, templates, seen + [item], owner)
  {
    hide Fold, IsLinked, LinkOwners;
    forall link
      ensures HasLink(seen + [item], link) <==> HasLink(seen, link) || (IsLinked(item) && Fold(item.link) == link)
    {
      assert item in seen + [item];
      assert forall x :: x in seen + [item] <==> x in seen || x == item;
    }
    hide HasLink;
  }

  lemma NextLinkTemplate(index: LinkIndex, templates: seq<TemplateInfo>, template: TemplateInfo)
    requires LinkIndexes(index, templates, template.inventory, Fold(template.templateId))
    ensures forall owner :: LinkIndexes(index, templates + [template], [], owner)
  {
    hide Fold, IsLinked;
    assert (templates + [template])[..|templates|] == templates;
  }

  /** FindDuplicateInventoryLinkConflicts: the inventory fields filled by more than one template. */
  method FindDuplicateInventoryLinkConflicts(templates: seq<TemplateInfo>) returns (conflicts: set<string>)
    ensures forall link :: link in conflicts <==> |LinkOwners(templates, link)| > 1
  {
    hide Fold, HasLink, IsLinked;
    var ownersByLink: LinkIndex := map[];
    assert forall link :: !HasLink([], link) by { NoLink(); }
    for i := 0 to |templates|
      invariant forall owner :: LinkIndexes(ownersByLink, templates[..i], [], owner)
    {
      var template := templates[i];
      var items, owner := template.inventory, Fold(template.templateId);
      assert items[..0] == [];
      for j := 0 to |items|
        invariant LinkIndexes(ownersByLink, templates[..i], items[..j], owner)
      {
        NextLink(ownersByLink, templates[..i], items[..j], owner, items[j]);
        assert items[..j + 1] == items[..j] + [items[j]];
        if IsLinked(items[j]) {
          var owners := if Fold(items[j].link) in ownersByLink then ownersByLink[Fold(items[j].link)] else {};
          ownersByLink := ownersByLink[Fold(items[j].link) := owners + {owner}];
        }
      }
      assert items[..|items|] == items;
      NextLinkTemplate(ownersByLink, templates[..i], template);
      assert templates[..i + 1] == templates[..i] + [template];
    }
    assert templates[..|templates|] == templates;
    conflicts := set link | link in ownersByLink && |ownersByLink[link]| > 1;
    assert LinkIndexes(ownersByLink, templates, [], "");
  }

  lemma NoLink()
    ensures forall link :: !HasLink([], link)
  {
  }

  lemma {:induction false} LinkOwnersElements(templates: seq<TemplateInfo>, link: string, owner: string)
    ensures owner in LinkOwners(templates, link) <==>
            exists t :: t in templates && HasLink(t.inventory, link) && Fold(t.templateId) == owner
  {
    hide HasLink, Fold;
    if templates != [] {
      var front, last := templates[..|templates| - 1], templates[|templates| - 1];
      assert templates == front + [last];
      LinkOwnersElements(front, link, owner);
    }
  }

  ghost predicate SomeSharedLink(templates: seq<TemplateInfo>) {
    exists left, right :: left in templates && right in templates && !Same(left.templateId, right.templateId)
                          && SharesLink(left.inventory, right.inventory)
  }

  lemma ShareLinks(left: seq<InventoryItem>, right: seq<InventoryItem>)
    ensures SharesLink(left, right) <==> exists link :: HasLink(left, link) && HasLink(right, link)
  {
    hide Fold;
    if SharesLink(left, right) {
      var a, b :| a in left && b in right && !Blank(a.link) && Fold(a.link) != "0" && Same(a.link, b.link);
      SameBlank(a.link, b.link);
      assert HasLink(left, Fold(a.link)) && HasLink(right, Fold(a.link));
    }
    if link :| HasLink(left, link) && HasLink(right, link) {
      var a :| a in left && IsLinked(a) && Fold(a.link) == link;
      var b :| b in right && IsLinked(b) && Fold(b.link) == link;
      assert Same(a.link, b.link);
    }
  }

  lemma LinkOwnersShare(templates: seq<TemplateInfo>, link: string)
    requires |LinkOwners(templates, link)| > 1
    ensures SomeSharedLink(templates)
  {
    hide HasLink, SharesLink, Fold;
    var a, b := TwoElements(LinkOwners(templates, link));
    LinkOwnersElements(templates, link, a);
    LinkOwnersElements(templates, link, b);
    var left :| left in templates && HasLink(left.inventory, link) && Fold(left.templateId) == a;
    var right :| right in templates && HasLink(right.inventory, link) && Fold(right.templateId) == b;
    ShareLinks(left.inventory, right.inventory);
  }

  lemma SharedHasLinkOwners(templates: seq<TemplateInfo>) returns (link: string)
    requires SomeSharedLink(templates)
    ensures |LinkOwners(templates, link)| > 1
  {
    hide HasLink, SharesLink, Fold;
    var left, right :| left in templates && right in templates && !Same(left.templateId, right.templateId)
                       && SharesLink(left.inventory, right.inventory);
    ShareLinks(left.inventory, right.inventory);
    link :| HasLink(left.inventory, link) && HasLink(right.inventory, link);
    LinkOwnersElements(templates, link, Fold(left.templateId));
    LinkOwnersElements(templates, link, Fold(right.templateId));
    MoreThanOne(LinkOwners(templates, link), Fold(left.templateId), Fold(right.templateId));
  }

  /** Some inventory field has two owners exactly when two templates with different ids fill one. */
  lemma LinkConflicts(templates: seq<TemplateInfo>, conflicts: set<string>)
    requires forall link :: link in conflicts <==> |LinkOwners(templates, link)| > 1
    ensures conflicts != {} <==> SomeSharedLink(templates)
  {
    hide SomeSharedLink;
    if conflicts != {} {
      var link :| link in conflicts;
      LinkOwnersShare(templates, link);
    }
    if SomeSharedLink(templates) {
      var link := SharedHasLinkOwners(templates);
      assert link in conflicts;
    }
  }

  // ---------------------------------------------------------------- the check

  lemma IncompatibleExactly(selected: seq<TemplateInfo>)
    ensures Incompatible(selected) <==>
            SomeSharedKey(selected, ItemKeys) || SomeSharedKey(selected, RuleKeys) || SomeSharedLink(selected)
  {
    hide SharesKey, SharesLink, Same;
    if Incompatible(selected) {
      var left, right :| left in selected && right in selected && Clash(left, right);
      assert KeysOf(left, ItemKeys) == left.itemKeys && KeysOf(right, ItemKeys) == right.itemKeys;
      assert KeysOf(left, RuleKeys) == left.ruleKeys && KeysOf(right, RuleKeys) == right.ruleKeys;
    }
    if SomeSharedKey(selected, ItemKeys) {
      SharedKeyClashes(selected, ItemKeys);
    }
    if SomeSharedKey(selected, RuleKeys) {
      SharedKeyClashes(selected, RuleKeys);
    }
    if SomeSharedLink(selected) {
      var left, right :| left in selected && right in selected && !Same(left.templateId, right.templateId)
                         && SharesLink(left.inventory, right.inventory);
      assert Clash(left, right);
    }
  }

  lemma SharedKeyClashes(selected: seq<TemplateInfo>, source: KeySource)
    requires SomeSharedKey(selected, source)
    ensures Incompatible(selected)
  {
    hide SharesKey, SharesLink, Same;
    var left, right :| left in selected && right in selected && Owner(left) != Owner(right)
                       && SharesKey(KeysOf(left, source), KeysOf(right, source));
    assert Clash(left, right);
  }

  /** The compatibility check is sound and complete: it reports a conflict exactly when two different templates of the
      selection share an item key, a discovery rule key or an inventory field. */
  method ValidateTemplateCompatibility(
    templateIds: seq<string>, templates: map<string, TemplateInfo>) returns (conflict: bool)
    ensures conflict <==> Incompatible(Selected(templateIds, templates))
  {
    hide Incompatible, SomeSharedKey, SomeSharedLink, Fold;
    conflict := AnyConflict(Selected(templateIds, templates));
  }

  method AnyConflict(selected: seq<TemplateInfo>) returns (conflict: bool)
    ensures conflict <==> Incompatible(selected)
  {
    hide Incompatible, SomeSharedKey, SomeSharedLink, Fold;
    var itemKeys := FindDuplicateKeyConflicts(selected, ItemKeys);
    var ruleKeys := FindDuplicateKeyConflicts(selected, RuleKeys);
    var links := FindDuplicateInventoryLinkConflicts(selected);
    conflict := itemKeys != {} || ruleKeys != {} || links != {};
    KeyConflicts(selected, ItemKeys, itemKeys);
    KeyConflicts(selected, RuleKeys, ruleKeys);
    LinkConflicts(selected, links);
    IncompatibleExactly(selected);
  }
}
