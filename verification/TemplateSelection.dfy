/** Which templates the rules select and clear for an event, and what the host ends up with. */
module TemplateSelection {
  import opened Text
  import opened JsonModel
  import HostMerge
  import opened TemplateMerge
  import HostUpdate
  import HostUpdateProofs
  import RuleConditions

  datatype Template = Template(name: string, templateId: string)

  datatype SelectionRule = SelectionRule(priority: int, condition: RuleConditions.Condition, templates: seq<Template>)

  datatype ConflictRule = ConflictRule(whenTemplateIds: seq<string>, removeTemplateIds: seq<string>)

  datatype Selection = Selection(templates: seq<Template>, toClear: seq<string>)

  function IdsOf(templates: seq<Template>): seq<string> {
    seq(|templates|, i requires 0 <= i < |templates| => templates[i].templateId)
  }

  predicate Fires(rule: ConflictRule, selected: set<string>) {
    && rule.whenTemplateIds != [] && rule.removeTemplateIds != []
    && exists id :: id in rule.whenTemplateIds && Fold(id) in selected
  }

  /** The ids that the firing conflict rules remove, case-folded. */
  function Removed(rules: seq<ConflictRule>, selected: set<string>): set<string> {
    set rule, id | rule in rules && Fires(rule, selected) && id in rule.removeTemplateIds && !Blank(id) :: Fold(id)
  }

  /** The loops of ApplyTemplateConflictRules: what is selected is fixed before the first rule is applied. */
  method ApplyTemplateConflictRules(
    templates: seq<Template>, rules: seq<ConflictRule>) returns (kept: seq<Template>, removed: seq<string>)
    ensures FoldSet(removed) == Removed(rules, FoldSet(NonBlankIds(templates)))
    ensures forall i, j :: 0 <= i < j < |removed| ==> !Same(removed[i], removed[j])
    ensures kept == Outside(templates, FoldSet(removed))
  {
    var selected := FoldedIds(NonBlankIds(templates));
    FoldedIdsIsFoldSet(NonBlankIds(templates));
    removed := [];
    ghost var sofar: set<string> := {};
    for i := 0 to |rules|
      invariant FoldSet(removed) == Removed(rules[..i], selected)
      invariant forall a, b :: 0 <= a < b < |removed| ==> !Same(removed[a], removed[b])
    {
      var rule := rules[i];
      RemovedAppend(rules[..i], rule, selected);
      assert rules[..i + 1] == rules[..i] + [rule];
      if rule.whenTemplateIds == [] || rule.removeTemplateIds == [] {
        continue;
      }
      if exists id :: id in rule.whenTemplateIds && Fold(id) in selected {
        removed := AddIds(removed, rule.removeTemplateIds);
      }
    }
    assert rules[..|rules|] == rules;
    kept := Outside(templates, FoldedIds(removed));
    FoldedIdsIsFoldSet(removed);
  }

  method AddIds(removed: seq<string>, ids: seq<string>) returns (more: seq<string>)
    requires forall a, b :: 0 <= a < b < |removed| ==> !Same(removed[a], removed[b])
    ensures FoldSet(more) == FoldSet(removed) + NonBlankFolded(ids)
    ensures forall a, b :: 0 <= a < b < |more| ==> !Same(more[a], more[b])
  {
    more := removed;
    for i := 0 to |ids|
      invariant FoldSet(more) == FoldSet(removed) + NonBlankFolded(ids[..i])
      invariant forall a, b :: 0 <= a < b < |more| ==> !Same(more[a], more[b])
    {
      assert ids[..i + 1] == ids[..i] + [ids[i]];
      FoldSetHolds(more, ids[i]);
      assert NonBlankFolded(ids[..i + 1]) == NonBlankFolded(ids[..i]) + if Blank(ids[i]) then {} else {Fold(ids[i])};
      if !Blank(ids[i]) && !Holds(more, ids[i]) {
        FoldSetAppend(more, [ids[i]]);
        assert FoldSet([ids[i]]) == {Fold(ids[i])} + FoldSet([ids[i]][1..]);
        more := more + [ids[i]];
      }
    }
    assert ids[..|ids|] == ids;
  }

  function NonBlankFolded(ids: seq<string>): set<string> {
    set id | id in ids && !Blank(id) :: Fold(id)
  }

  function FoldedIds(ids: seq<string>): set<string> {
    set id | id in ids :: Fold(id)
  }

  lemma {:induction false} FoldedIdsIsFoldSet(ids: seq<string>)
    ensures FoldedIds(ids) == FoldSet(ids)
  {
    if ids != [] {
      assert ids == [ids[0]] + ids[1..];
      FoldedIdsIsFoldSet(ids[1..]);
      assert FoldedIds(ids) == {Fold(ids[0])} + FoldedIds(ids[1..]);
    }
  }

  lemma RemovedAppend(rules: seq<ConflictRule>, last: ConflictRule, selected: set<string>)
    ensures Removed(rules + [last], selected)
            == Removed(rules, selected) + if Fires(last, selected) then NonBlankFolded(last.removeTemplateIds) else {}
  {
    assert forall r :: r in rules + [last] <==> r in rules || r == last;
  }

  /** The templates with an id, and the ids themselves. */
  function WithId(templates: seq<Template>): seq<Template> {
    if templates == [] then []
    else (if Blank(templates[0].templateId) then [] else [templates[0]]) + WithId(templates[1..])
  }

  function NonBlankIds(templates: seq<Template>): seq<string> {
    IdsOf(WithId(templates))
  }

  function Outside(templates: seq<Template>, removed: set<string>): seq<Template> {
    if templates == [] then []
    else (if Fold(templates[0].templateId) in removed then [] else [templates[0]]) + Outside(templates[1..], removed)
  }

  /** GroupBy id, keeping the first template of each group. */
  function FirstOfEach(templates: seq<Template>, seen: set<string>): seq<Template> {
    if templates == [] then []
    else if Fold(templates[0].templateId) in seen then FirstOfEach(templates[1..], seen)
    else [templates[0]] + FirstOfEach(templates[1..], seen + {Fold(templates[0].templateId)})
  }

  /** The templates of the rules that apply to the event, in the order of the rules. */
  function Matched(source: RuleConditions.Source, profiles: seq<string>, rules: seq<SelectionRule>): seq<Template> {
    if rules == [] then []
    else
      (if RuleConditions.MatchesSelectionRule(source, profiles, rules[0].condition) then rules[0].templates else [])
      + Matched(source, profiles, rules[1..])
  }

  /** The selection for an event: what matched without the removed ids, one template an id, and the removed ids to
      clear. */
  ghost predicate Selects(matched: seq<Template>, conflicts: seq<ConflictRule>, selection: Selection) {
    var removed := Removed(conflicts, FoldSet(IdsOf(matched)));
    && selection.templates == FirstOfEach(Outside(matched, removed), {})
    && FoldSet(selection.toClear) == removed
    && forall id :: id in selection.toClear ==> !Blank(id)
  }

  /** SelectTemplateSelection, for rules in the order of their priority. */
  method SelectTemplateSelection(
    source: RuleConditions.Source, profiles: seq<string>, rules: seq<SelectionRule>, conflicts: seq<ConflictRule>)
      returns (selection: Selection)
    ensures Selects(WithId(Matched(source, profiles, rules)), conflicts, selection)
  {
    var matched := WithId(Matched(source, profiles, rules));
    WithIdAgain(Matched(source, profiles, rules));
    hide Matched, RuleConditions.MatchesSelectionRule, WithId;
    var kept, removed := ApplyTemplateConflictRules(matched, conflicts);
    var templates := FirstOfEach(kept, {});
    var toClear := NotSelectedIds(templates, removed);
    OutsideIds(matched, FoldSet(removed));
    FirstOfEachIds(kept, {});
    hide Outside, FirstOfEach;
    assert toClear == removed by {
      forall id | id in removed
        ensures !Holds(IdsOf(templates), id)
      {
        FoldSetIn(removed, id);
        FoldSetHolds(IdsOf(templates), id);
      }
    }
    selection := Selection(templates, toClear);
    hide Removed;
    forall id | id in toClear
      ensures !Blank(id)
    {
      FoldSetIn(toClear, id);
      RemovedNotBlank(conflicts, FoldSet(IdsOf(matched)), id);
    }
  }

  lemma FoldSetIn(ids: seq<string>, id: string)
    requires id in ids
    ensures Fold(id) in FoldSet(ids)
  {
    FoldSetHolds(ids, id);
  }

  /** The removed ids that no selected template has. */
  method NotSelectedIds(templates: seq<Template>, removed: seq<string>) returns (toClear: seq<string>)
    ensures forall id :: id in toClear <==> id in removed && !Holds(IdsOf(templates), id)
    ensures (forall id :: id in removed ==> !Holds(IdsOf(templates), id)) ==> toClear == removed
  {
    toClear := [];
    for i := 0 to |removed|
      invariant forall id :: id in toClear <==> id in removed[..i] && !Holds(IdsOf(templates), id)
      invariant (forall id :: id in removed[..i] ==> !Holds(IdsOf(templates), id)) ==> toClear == removed[..i]
    {
      assert removed[..i + 1] == removed[..i] + [removed[i]];
      assert forall id :: id in removed[..i + 1] <==> id in removed[..i] || id == removed[i];
      SelectedHolds(templates, removed[i]);
      if !exists t :: t in templates && Same(t.templateId, removed[i]) {
        toClear := toClear + [removed[i]];
      }
    }
    assert removed[..|removed|] == removed;
  }

  lemma BlankFold(s: string, t: string)
    requires Same(s, t)
    ensures Blank(s) == Blank(t)
  {
    assert forall i :: 0 <= i < |s| ==> Fold(s)[i] == FoldChar(s[i]) && Fold(t)[i] == FoldChar(t[i]);
    assert forall c :: IsSpace(c) <==> IsSpace(FoldChar(c));
    if Blank(s) {
      forall c | c in t ensures IsSpace(c) {
        var i :| 0 <= i < |t| && t[i] == c;
        assert s[i] in s && FoldChar(s[i]) == FoldChar(t[i]);
      }
    }
    if Blank(t) {
      forall c | c in s ensures IsSpace(c) {
        var i :| 0 <= i < |s| && s[i] == c;
        assert t[i] in t && FoldChar(s[i]) == FoldChar(t[i]);
      }
    }
  }

  lemma RemovedNotBlank(rules: seq<ConflictRule>, selected: set<string>, id: string)
    requires Fold(id) in Removed(rules, selected)
    ensures !Blank(id)
  {
    var rule, other :| rule in rules && Fires(rule, selected) && other in rule.removeTemplateIds && !Blank(other)
      && Fold(other) == Fold(id);
    BlankFold(other, id);
  }

  lemma SelectedHolds(templates: seq<Template>, id: string)
    ensures (exists t :: t in templates && Same(t.templateId, id)) <==> Holds(IdsOf(templates), id)
  {
    forall t | t in templates
      ensures t.templateId in IdsOf(templates)
    {
      var i :| 0 <= i < |templates| && templates[i] == t;
      assert IdsOf(templates)[i] == t.templateId;
    }
    forall y | y in IdsOf(templates)
      ensures exists t :: t in templates && t.templateId == y
    {
      var i :| 0 <= i < |templates| && IdsOf(templates)[i] == y;
      assert templates[i] in templates;
    }
  }

  lemma {:induction false} WithIdAgain(templates: seq<Template>)
    ensures WithId(WithId(templates)) == WithId(templates)
  {
    if templates != [] {
      WithIdAgain(templates[1..]);
      var rest := WithId(templates[1..]);
      if Blank(templates[0].templateId) {
        assert WithId(templates) == [] + rest == rest;
      } else {
        assert ([templates[0]] + rest)[1..] == rest;
      }
    }
  }

  lemma IdsOfCons(t: Template, rest: seq<Template>)
    ensures FoldSet(IdsOf([t] + rest)) == {Fold(t.templateId)} + FoldSet(IdsOf(rest))
  {
    assert IdsOf([t] + rest) == [t.templateId] + IdsOf(rest);
    assert ([t.templateId] + IdsOf(rest))[1..] == IdsOf(rest);
  }

  lemma {:induction false} OutsideIds(templates: seq<Template>, removed: set<string>)
    ensures FoldSet(IdsOf(Outside(templates, removed))) == FoldSet(IdsOf(templates)) - removed
  {
    if templates == [] {
      assert IdsOf(templates) == [];
    } else {
      var rest := Outside(templates[1..], removed);
      OutsideIds(templates[1..], removed);
      assert templates == [templates[0]] + templates[1..];
      IdsOfCons(templates[0], templates[1..]);
      if Fold(templates[0].templateId) in removed {
        assert Outside(templates, removed) == [] + rest == rest;
      } else {
        IdsOfCons(templates[0], rest);
      }
    }
  }

  lemma {:induction false} FirstOfEachIds(templates: seq<Template>, seen: set<string>)
    ensures FoldSet(IdsOf(FirstOfEach(templates, seen))) == FoldSet(IdsOf(templates)) - seen
  {
    if templates == [] {
      assert IdsOf(templates) == [];
    } else {
      var id := Fold(templates[0].templateId);
      assert templates == [templates[0]] + templates[1..];
      IdsOfCons(templates[0], templates[1..]);
      if id in seen {
        FirstOfEachIds(templates[1..], seen);
      } else {
        FirstOfEachIds(templates[1..], seen + {id});
        IdsOfCons(templates[0], FirstOfEach(templates[1..], seen + {id}));
      }
    }
  }

  /** What the conflict rules remove does not depend on their order. */
  lemma ConflictOrderIrrelevant(rules: seq<ConflictRule>, reordered: seq<ConflictRule>, selected: set<string>)
    requires multiset(rules) == multiset(reordered)
    ensures Removed(rules, selected) == Removed(reordered, selected)
  {
    assert forall r :: r in rules <==> r in multiset(rules);
    assert forall r :: r in reordered <==> r in multiset(reordered);
  }

  // ---------------------------------------------------------------- from the rules to the host

  /** The update parameters rendered for a selection: templates_clear only when there is something to clear. */
  function RenderedUpdate(others: seq<Prop>, selection: Selection): Json {
    Obj(others + [Prop("templates", Arr(IdObjects(IdsOf(selection.templates))))]
        + if selection.toClear == [] then [] else [Prop("templates_clear", Arr(IdObjects(selection.toClear)))])
  }

  ghost predicate OtherNames(others: seq<Prop>) {
    && HostUpdateProofs.UniqueNames(others)
    && forall p :: p in others ==> Fold(p.name) != "templates" && Fold(p.name) != "templates_clear"
  }

  /** With C the ids removed by the firing conflict rules: the parameters list exactly the selected templates and the
      linked ones outside C, all selected ones among them and none of C, and clear exactly the linked ones in C. */
  ghost predicate CarriesSelection(
    matched: seq<Template>, conflicts: seq<ConflictRule>, info: HostUpdate.HostInfo, params: Json) {
    var c := Removed(conflicts, FoldSet(IdsOf(matched)));
    var linked, selected := FoldSet(info.templateIds), FoldSet(IdsOf(matched)) - c;
    var templates, cleared := HostMerge.KeySet(BY_ID, Items(Get(params, "templates"))),
      HostMerge.KeySet(BY_ID, Items(Get(params, "templates_clear")));
    && templates == selected + (linked - c)
    && selected <= templates && templates !! c
    && cleared == linked * c && templates !! cleared
  }

  /** The payload merged from an update that was rendered for a selection carries it. */
  lemma RulesToHost(
    matched: seq<Template>, conflicts: seq<ConflictRule>, selection: Selection, others: seq<Prop>,
    info: HostUpdate.HostInfo)
    requires forall t :: t in matched ==> !Blank(t.templateId)
    requires Selects(matched, conflicts, selection) && OtherNames(others)
    requires forall id :: id in info.templateIds ==> !Blank(id)
    ensures CarriesSelection(matched, conflicts, info, HostUpdate.UpdateParams(RenderedUpdate(others, selection), info))
  {
    var c := Removed(conflicts, FoldSet(IdsOf(matched)));
    SelectionIsDisjoint(matched, c);
    SelectionToHost(selection, c, others, info);
  }

  lemma IdsNotBlank(templates: seq<Template>)
    requires forall t :: t in templates ==> !Blank(t.templateId)
    ensures forall id :: id in IdsOf(templates) ==> !Blank(id)
  {
    forall id | id in IdsOf(templates)
      ensures !Blank(id)
    {
      var i :| 0 <= i < |templates| && IdsOf(templates)[i] == id;
      assert templates[i] in templates;
    }
  }

  lemma SelectionToHost(selection: Selection, removed: set<string>, others: seq<Prop>, info: HostUpdate.HostInfo)
    requires OtherNames(others)
    requires forall t :: t in selection.templates ==> !Blank(t.templateId)
    requires forall id :: id in selection.toClear ==> !Blank(id)
    requires FoldSet(selection.toClear) == removed && FoldSet(IdsOf(selection.templates)) !! removed
    requires forall id :: id in info.templateIds ==> !Blank(id)
    ensures var sent := HostUpdate.UpdateParams(RenderedUpdate(others, selection), info);
            var linked, selected := FoldSet(info.templateIds), FoldSet(IdsOf(selection.templates));
            && HostMerge.KeySet(BY_ID, Items(Get(sent, "templates"))) == selected + (linked - removed)
            && HostMerge.KeySet(BY_ID, Items(Get(sent, "templates_clear"))) == linked * removed
  {
    var params := RenderedUpdate(others, selection);
    var t := |others|;
    var desired := IdObjects(IdsOf(selection.templates));
    assert params.props[t] == Prop("templates", Arr(desired));
    RenderedNames(others, selection);
    IdsNotBlank(selection.templates);
    IdObjectsKeys(IdsOf(selection.templates));
    if selection.toClear == [] {
      PayloadWithoutClear(params, info, t);
    } else {
      IdObjectsKeys(selection.toClear);
      assert params.props[t + 1] == Prop("templates_clear", Arr(IdObjects(selection.toClear)));
      HostUpdateProofs.PayloadTemplates(params, info, t, t + 1);
    }
  }

  lemma RenderedNames(others: seq<Prop>, selection: Selection)
    requires OtherNames(others)
    ensures HostUpdateProofs.UniqueNames(RenderedUpdate(others, selection).props)
    ensures selection.toClear == [] ==> forall p :: p in RenderedUpdate(others, selection).props ==>
              Fold(p.name) != "templates_clear"
  {
    HostUpdateProofs.FoldedLiterals();
    var props := RenderedUpdate(others, selection).props;
    forall i, j | 0 <= i < j < |props|
      ensures Fold(props[i].name) != Fold(props[j].name)
    {
      if i < |others| {
        assert props[i] == others[i] && others[i] in others;
        if j < |others| {
          assert props[j] == others[j];
        }
      }
    }
  }

  lemma PayloadWithoutClear(params: Json, info: HostUpdate.HostInfo, t: nat)
    requires params.Obj? && HostUpdateProofs.UniqueNames(params.props) && t < |params.props|
    requires params.props[t].name == "templates" && params.props[t].value.Arr?
    requires forall p :: p in params.props ==> Fold(p.name) != "templates_clear"
    requires forall x :: x in info.templateIds ==> !Blank(x)
    ensures var sent := HostUpdate.UpdateParams(params, info);
            && HostMerge.KeySet(BY_ID, Items(Get(sent, "templates"))) == FoldSet(info.templateIds) +
               HostMerge.KeySet(BY_ID, params.props[t].value.items)
            && Get(sent, "templates_clear") == Undefined
  {
    HostUpdateProofs.FoldedLiterals();
    LookupNone(params.props, "templates_clear");
    var clear := HostUpdate.IdSet(Items(Get(params, "templates_clear")));
    HostUpdateProofs.IdSetOfNothing();
    HostUpdateProofs.PayloadProperty(params, info, t, "templates");
    var templates := Arr(MergedTemplates(params.props[t].value.items, info.templateIds, clear));
    assert HostUpdate.MergedProp(params.props[t], info, clear) == [Prop("templates", templates)];
    LookupSingle(Prop("templates", templates), "templates");
    MergedTemplateIds(params.props[t].value.items, info.templateIds, clear);
    HostUpdateProofs.AbsentName(params.props, info, clear, "templates_clear");
    LookupAppend([Prop("hostid", Str(info.hostId))], HostUpdate.MergedProps(params.props, info, clear),
                 "templates_clear");
    LookupSingle(Prop("hostid", Str(info.hostId)), "templates_clear");
  }

  /** The selection an event gets meets what RulesToHost asks of it. */
  lemma SelectionIsDisjoint(matched: seq<Template>, removed: set<string>)
    requires forall t :: t in matched ==> !Blank(t.templateId)
    ensures var templates := FirstOfEach(Outside(matched, removed), {});
            && FoldSet(IdsOf(templates)) == FoldSet(IdsOf(matched)) - removed
            && forall t :: t in templates ==> !Blank(t.templateId)
  {
    OutsideIds(matched, removed);
    FirstOfEachIds(Outside(matched, removed), {});
    OutsideElements(matched, removed);
    FirstOfEachElements(Outside(matched, removed), {});
  }

  lemma {:induction false} OutsideElements(templates: seq<Template>, removed: set<string>)
    ensures forall t :: t in Outside(templates, removed) ==> t in templates
  {
    if templates != [] {
      OutsideElements(templates[1..], removed);
    }
  }

  lemma {:induction false} FirstOfEachElements(templates: seq<Template>, seen: set<string>)
    ensures forall t :: t in FirstOfEach(templates, seen) ==> t in templates
  {
    if templates != [] {
      FirstOfEachElements(templates[1..], seen);
      FirstOfEachElements(templates[1..], seen + {Fold(templates[0].templateId)});
    }
  }
}
