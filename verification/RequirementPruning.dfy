/** Pruning the fields a webhook has to send: a field read by path makes a plain field with one of its names
    superfluous, and takes over the rules that asked for it. */
module RequirementPruning {
  import Text
  import opened WebhookBody

  /** The non-empty texts, each once. */
  function UniqueTokens(texts: seq<string>): (r: seq<string>)
    ensures forall x :: x in r <==> x in texts && x != ""
  {
    if texts == [] then []
    else
      var front, last := texts[..|texts| - 1], texts[|texts| - 1];
      assert texts == front + [last];
      if last == "" || last in UniqueTokens(front) then UniqueTokens(front) else UniqueTokens(front) + [last]
  }

  predicate IsPath(requirement: Requirement) {
    requirement.cmdbPath != ""
  }

  function IdentityTokens(requirement: Requirement): seq<string> {
    UniqueTokens([Text.Token(requirement.payloadKey), Text.Token(requirement.source),
                  Text.Token(requirement.cmdbAttribute),
                  Text.Token(requirement.placeholderAttribute)])
  }

  /** cmdbPathRequirementShadowsPayloadRequirement. */
  predicate Shadows(path: Requirement, payload: Requirement) {
    IsPath(path) && !IsPath(payload) &&
    exists token :: token in IdentityTokens(path) && token in IdentityTokens(payload)
  }

  function Absorb(target: Requirement, source: Requirement): Requirement {
    target.(requiredByRules := UniqueTokens(target.requiredByRules + source.requiredByRules))
  }

  /** The first requirement that shadows another one. */
  function ShadowAt(result: seq<Requirement>, requirement: Requirement): (i: nat)
    ensures i <= |result| && (i < |result| ==> Shadows(result[i], requirement))
  {
    if result == [] || Shadows(result[0], requirement) then 0 else 1 + ShadowAt(result[1..], requirement)
  }

  lemma {:induction false} ShadowAtIsFirst(result: seq<Requirement>, requirement: Requirement)
    ensures forall j :: 0 <= j < ShadowAt(result, requirement) ==> !Shadows(result[j], requirement)
  {
    hide Shadows;
    if result != [] && !Shadows(result[0], requirement) {
      ShadowAtIsFirst(result[1..], requirement);
      forall j | 0 <= j < ShadowAt(result, requirement)
        ensures !Shadows(result[j], requirement)
      {
        if j > 0 {
          assert result[1..][j - 1] == result[j];
        }
      }
    }
  }

  /** What is left of a result, and what a requirement by path becomes, from the last one to the first. */
  function Removed(result: seq<Requirement>, path: Requirement): (seq<Requirement>, Requirement) {
    if result == [] then ([], path)
    else
      var front, last := result[..|result| - 1], result[|result| - 1];
      if Shadows(path, last) then Removed(front, Absorb(path, last))
      else
        var (kept, grown) := Removed(front, path);
        (kept + [last], grown)
  }

  function Added(result: seq<Requirement>, requirement: Requirement): seq<Requirement> {
    if IsPath(requirement) then
      var (kept, grown) := Removed(result, requirement);
      kept + [grown]
    else
      var i := ShadowAt(result, requirement);
      if i < |result| then result[i := Absorb(result[i], requirement)] else result + [requirement]
  }

  function Pruned(requirements: seq<Requirement>): seq<Requirement> {
    if requirements == [] then []
    else Added(Pruned(requirements[..|requirements| - 1]), requirements[|requirements| - 1])
  }

  /** The inner loop of pruneShadowedPayloadRequirements, for a requirement by path. */
  method RemoveShadowed(
    result: seq<Requirement>, path: Requirement) returns (kept: seq<Requirement>, grown: Requirement)
    ensures (kept, grown) == Removed(result, path)
  {
    hide Shadows, Absorb, IsPath;
    kept, grown := result, path;
    ghost var tail: seq<Requirement> := [];
    assert result[..|result|] == result;
    assert Removed(result, path).0 + [] == Removed(result, path).0;
    var index: int := |result| - 1;
    while index >= 0
      invariant -1 <= index < |result| && kept == result[..index + 1] + tail
      invariant Removed(result, path).0 == Removed(result[..index + 1], grown).0 + tail
      invariant Removed(result, path).1 == Removed(result[..index + 1], grown).1
    {
      var existing := kept[index];
      var front := result[..index + 1];
      assert front[..index] == result[..index] && front[index] == existing;
      if Shadows(grown, existing) {
        grown := Absorb(grown, existing);
        kept := kept[..index] + kept[index + 1..];
      } else {
        ghost var rest := Removed(result[..index], grown).0;
        assert (rest + [existing]) + tail == rest + ([existing] + tail);
        tail := [existing] + tail;
      }
      assert kept == result[..index] + tail;
      index := index - 1;
    }
    assert [] + tail == tail;
  }

  /** The outer loop of pruneShadowedPayloadRequirements. */
  method PruneShadowed(requirements: seq<Requirement>) returns (result: seq<Requirement>)
    ensures result == Pruned(requirements)
  {
    hide Shadows, Absorb, IsPath, Removed;
    result := [];
    for n := 0 to |requirements|
      invariant result == Pruned(requirements[..n])
    {
      var requirement := requirements[n];
      assert requirements[..n + 1][..n] == requirements[..n];
      if !IsPath(requirement) {
        var shadow := 0;
        while shadow < |result| && !Shadows(result[shadow], requirement)
          invariant shadow <= |result| && forall j :: 0 <= j < shadow ==> !Shadows(result[j], requirement)
        {
          shadow := shadow + 1;
        }
        ShadowAtIsFirst(result, requirement);
        if shadow < |result| {
          result := result[shadow := Absorb(result[shadow], requirement)];
        } else {
          result := result + [requirement];
        }
      } else {
        var kept, grown := RemoveShadowed(result, requirement);
        result := kept + [grown];
      }
    }
    assert requirements[..|requirements|] == requirements;
  }

  // ---------------------------------------------------------------- what is kept

  /** A requirement apart from the rules that ask for it. */
  function Bare(requirement: Requirement): Requirement {
    requirement.(requiredByRules := [])
  }

  function BareAll(requirements: seq<Requirement>): seq<Requirement> {
    if requirements == [] then []
    else BareAll(requirements[..|requirements| - 1]) + [Bare(requirements[|requirements| - 1])]
  }

  predicate ShadowedBySome(requirements: seq<Requirement>, requirement: Requirement) {
    exists path :: path in requirements && Shadows(path, requirement)
  }

  /** The requirements that nothing in a list shadows. */
  function Unshadowed(requirements: seq<Requirement>, all: seq<Requirement>): seq<Requirement> {
    if requirements == [] then []
    else
      var last := requirements[|requirements| - 1];
      Unshadowed(requirements[..|requirements| - 1], all) + if ShadowedBySome(all, last) then [] else [Bare(last)]
  }

  lemma ShadowsBare(path: Requirement, payload: Requirement)
    ensures Shadows(Bare(path), Bare(payload)) == Shadows(path, payload)
    ensures Shadows(path, Bare(payload)) == Shadows(path, payload)
    ensures Shadows(Bare(path), payload) == Shadows(path, payload)
  {
    assert IdentityTokens(Bare(path)) == IdentityTokens(path);
    assert IdentityTokens(Bare(payload)) == IdentityTokens(payload);
  }

  lemma BareAbsorb(target: Requirement, source: Requirement)
    ensures Bare(Absorb(target, source)) == Bare(target)
  {
  }

  lemma BareOneMore(requirements: seq<Requirement>, requirement: Requirement)
    ensures BareAll(requirements + [requirement]) == BareAll(requirements) + [Bare(requirement)]
  {
    assert (requirements + [requirement])[..|requirements|] == requirements;
  }

  lemma {:induction false} BareAt(requirements: seq<Requirement>, i: nat)
    requires i < |requirements|
    ensures |BareAll(requirements)| == |requirements| && BareAll(requirements)[i] == Bare(requirements[i])
  {
    hide Bare;
    if i < |requirements| - 1 {
      BareAt(requirements[..|requirements| - 1], i);
    } else if |requirements| > 1 {
      BareAt(requirements[..|requirements| - 1], 0);
    }
  }

  lemma SameBare(left: seq<Requirement>, right: seq<Requirement>)
    requires |left| == |right| && forall i :: 0 <= i < |left| ==> Bare(left[i]) == Bare(right[i])
    ensures BareAll(left) == BareAll(right)
  {
    hide Bare, BareAll;
    if left == [] {
      assert left == right;
    } else {
      BareAt(left, 0);
      BareAt(right, 0);
      forall i | 0 <= i < |left|
        ensures BareAll(left)[i] == BareAll(right)[i]
      {
        BareAt(left, i);
        BareAt(right, i);
      }
    }
  }

  /** Whether a list holds a shadow does not depend on the rules that ask for its requirements. */
  lemma ShadowedByBare(requirements: seq<Requirement>, requirement: Requirement)
    ensures ShadowedBySome(BareAll(requirements), requirement) == ShadowedBySome(requirements, requirement)
  {
    hide Shadows, Bare, BareAll;
    if path :| path in requirements && Shadows(path, requirement) {
      var i :| 0 <= i < |requirements| && requirements[i] == path;
      BareAt(requirements, i);
      ShadowsBare(path, requirement);
      assert BareAll(requirements)[i] in BareAll(requirements);
    }
    if path :| path in BareAll(requirements) && Shadows(path, requirement) {
      var i :| 0 <= i < |BareAll(requirements)| && BareAll(requirements)[i] == path;
      BareLength(requirements);
      BareAt(requirements, i);
      ShadowsBare(requirements[i], requirement);
      assert requirements[i] in requirements;
    }
  }

  lemma {:induction false} BareLength(requirements: seq<Requirement>)
    ensures |BareAll(requirements)| == |requirements|
  {
    if requirements != [] {
      BareLength(requirements[..|requirements| - 1]);
    }
  }

  /** Dropping what one requirement by path shadows. */
  function Without(requirements: seq<Requirement>, path: Requirement): seq<Requirement> {
    if requirements == [] then []
    else
      var last := requirements[|requirements| - 1];
      Without(requirements[..|requirements| - 1], path) + if Shadows(path, last) then [] else [last]
  }

  lemma {:induction false} RemovedShape(result: seq<Requirement>, path: Requirement)
    ensures BareAll(Removed(result, path).0) == Without(BareAll(result), path)
            && Bare(Removed(result, path).1) == Bare(path)
  {
    hide Shadows, Bare, Absorb;
    if result != [] {
      var front, last := result[..|result| - 1], result[|result| - 1];
      ShadowsBare(path, last);
      BareOneMore(front, last);
      assert front + [last] == result;
      assert BareAll(result)[..|BareAll(result)| - 1] == BareAll(front);
      if Shadows(path, last) {
        RemovedShape(front, Absorb(path, last));
        BareAbsorb(path, last);
        SameWithout(BareAll(front), path, Absorb(path, last));
        assert Without(BareAll(front), path) + [] == Without(BareAll(front), path);
      } else {
        RemovedShape(front, path);
        BareOneMore(Removed(front, path).0, last);
      }
    }
  }

  lemma {:induction false} SameWithout(requirements: seq<Requirement>, path: Requirement, other: Requirement)
    requires Bare(path) == Bare(other)
    ensures Without(requirements, path) == Without(requirements, other)
  {
    hide Shadows, Bare;
    if requirements != [] {
      SameWithout(requirements[..|requirements| - 1], path, other);
      ShadowsBare(path, requirements[|requirements| - 1]);
      ShadowsBare(other, requirements[|requirements| - 1]);
    }
  }

  lemma {:induction false} WithoutUnshadowed(requirements: seq<Requirement>, all: seq<Requirement>, path: Requirement)
    ensures Without(Unshadowed(requirements, all), path) == Unshadowed(requirements, all + [path])
  {
    hide Shadows, Bare;
    if requirements != [] {
      var front, last := requirements[..|requirements| - 1], requirements[|requirements| - 1];
      WithoutUnshadowed(front, all, path);
      ShadowsBare(path, last);
      ShadowedByOneMore(all, path, last);
      var kept := Unshadowed(front, all);
      if ShadowedBySome(all, last) {
        assert kept + [] == kept;
      } else {
        assert (kept + [Bare(last)])[..|kept|] == kept;
      }
    }
  }

  lemma ShadowedByOneMore(all: seq<Requirement>, path: Requirement, requirement: Requirement)
    ensures ShadowedBySome(all + [path], requirement)
            <==> ShadowedBySome(all, requirement) || Shadows(path, requirement)
  {
    hide Shadows;
    assert path in all + [path];
    assert forall x :: x in all + [path] <==> x in all || x == path;
  }

  lemma {:induction false} PayloadShadowsNothing(
    requirements: seq<Requirement>, all: seq<Requirement>, payload: Requirement)
    requires !IsPath(payload)
    ensures Unshadowed(requirements, all + [payload]) == Unshadowed(requirements, all)
  {
    hide Bare;
    if requirements != [] {
      PayloadShadowsNothing(requirements[..|requirements| - 1], all, payload);
      ShadowedByOneMore(all, payload, requirements[|requirements| - 1]);
    }
  }

  /** All requirements by path are among those that nothing shadows. */
  lemma {:induction false} PathsUnshadowed(
    requirements: seq<Requirement>, all: seq<Requirement>, requirement: Requirement)
    ensures ShadowedBySome(Unshadowed(requirements, all), requirement) == ShadowedBySome(requirements, requirement)
  {
    hide Bare;
    if requirements != [] {
      var front, last := requirements[..|requirements| - 1], requirements[|requirements| - 1];
      PathsUnshadowed(front, all, requirement);
      ShadowedByOneMore(front, last, requirement);
      assert front + [last] == requirements;
      ShadowsBare(last, requirement);
      NeverShadowed(all, last);
      hide Shadows, IsPath;
      if ShadowedBySome(all, last) {
        assert Unshadowed(front, all) + [] == Unshadowed(front, all);
      } else {
        ShadowedByOneMore(Unshadowed(front, all), Bare(last), requirement);
      }
    }
  }

  lemma NeverShadowed(all: seq<Requirement>, requirement: Requirement)
    ensures ShadowedBySome(all, requirement) ==> forall other :: !Shadows(requirement, other)
  {
    hide IdentityTokens;
  }

  lemma PathAdded(front: seq<Requirement>, result: seq<Requirement>, path: Requirement)
    requires IsPath(path) && BareAll(result) == Unshadowed(front, front)
    ensures BareAll(Added(result, path)) == Unshadowed(front + [path], front + [path])
  {
    hide Shadows, Bare, Absorb, BareAll, Unshadowed, IdentityTokens, Removed;
    OneMoreUnshadowed(front, path, front + [path]);
    PathNotShadowed(front + [path], path);
    RemovedShape(result, path);
    WithoutUnshadowed(front, front, path);
    BareOneMore(Removed(result, path).0, Removed(result, path).1);
  }

  lemma PayloadAdded(front: seq<Requirement>, result: seq<Requirement>, payload: Requirement)
    requires !IsPath(payload) && BareAll(result) == Unshadowed(front, front)
    ensures BareAll(Added(result, payload)) == Unshadowed(front + [payload], front + [payload])
  {
    NotItself(payload);
    hide Shadows, Bare, Absorb, BareAll, Unshadowed, IdentityTokens;
    ShadowedByOneMore(front, payload, payload);
    OneMoreUnshadowed(front, payload, front + [payload]);
    PayloadShadowsNothing(front, front, payload);
    PathsUnshadowed(front, front, payload);
    ShadowedByBare(result, payload);
    var i := ShadowAt(result, payload);
    ShadowAtIsFirst(result, payload);
    if i < |result| {
      assert result[i] in result;
      BareAbsorb(result[i], payload);
      SameBare(result[i := Absorb(result[i], payload)], result);
      assert Unshadowed(front, front) + [] == Unshadowed(front, front);
    } else {
      BareOneMore(result, payload);
    }
  }

  /** Pruning keeps, in order, every requirement by path and every plain one that none of them shadows, and nothing
      else. */
  lemma {:induction false} PrunedExactly(requirements: seq<Requirement>)
    ensures BareAll(Pruned(requirements)) == Unshadowed(requirements, requirements)
  {
    hide IsPath, Added;
    if requirements != [] {
      var front, last := requirements[..|requirements| - 1], requirements[|requirements| - 1];
      PrunedExactly(front);
      assert front + [last] == requirements;
      if IsPath(last) {
        PathAdded(front, Pruned(front), last);
      } else {
        PayloadAdded(front, Pruned(front), last);
      }
    }
  }

  lemma NotItself(requirement: Requirement)
    ensures !Shadows(requirement, requirement)
  {
  }

  lemma PathNotShadowed(all: seq<Requirement>, path: Requirement)
    requires IsPath(path)
    ensures !ShadowedBySome(all, path)
  {
    hide IdentityTokens;
  }

  lemma OneMoreUnshadowed(requirements: seq<Requirement>, requirement: Requirement, all: seq<Requirement>)
    ensures Unshadowed(requirements + [requirement], all) ==
            Unshadowed(requirements, all) + if ShadowedBySome(all, requirement) then [] else [Bare(requirement)]
  {
    assert (requirements + [requirement])[..|requirements|] == requirements;
  }

  /** No requirement that is left shadows another. */
  lemma NoShadowLeft(requirements: seq<Requirement>, i: nat, j: nat)
    requires i < |Pruned(requirements)| && j < |Pruned(requirements)|
    ensures !Shadows(Pruned(requirements)[i], Pruned(requirements)[j])
  {
    hide Shadows, Bare, Pruned, BareAll, Unshadowed;
    var result := Pruned(requirements);
    PrunedExactly(requirements);
    BareAt(result, j);
    BareAt(result, i);
    var bare := BareAll(result);
    if Shadows(result[i], result[j]) {
      ShadowsBare(result[i], result[j]);
      assert bare[i] in bare;
      assert ShadowedBySome(Unshadowed(requirements, requirements), bare[j]);
      PathsUnshadowed(requirements, requirements, bare[j]);
      UnshadowedElement(requirements, requirements, j);
    }
  }

  lemma {:induction false} UnshadowedElement(requirements: seq<Requirement>, all: seq<Requirement>, j: nat)
    requires j < |Unshadowed(requirements, all)|
    ensures !ShadowedBySome(all, Unshadowed(requirements, all)[j])
  {
    hide Shadows, Bare;
    var front, last := requirements[..|requirements| - 1], requirements[|requirements| - 1];
    var kept := Unshadowed(front, all);
    if j < |kept| {
      UnshadowedElement(front, all, j);
    } else {
      BareShadowed(all, last);
    }
  }

  lemma BareShadowed(all: seq<Requirement>, requirement: Requirement)
    ensures ShadowedBySome(all, Bare(requirement)) == ShadowedBySome(all, requirement)
  {
    hide Shadows, Bare;
    forall path | path in all
      ensures Shadows(path, Bare(requirement)) == Shadows(path, requirement)
    {
      ShadowsBare(path, requirement);
    }
  }

  // ---------------------------------------------------------------- the rules that ask

  function RulesOf(requirement: Requirement): set<string> {
    set rule | rule in requirement.requiredByRules && rule != ""
  }

  function AllRules(requirements: seq<Requirement>): set<string> {
    if requirements == [] then {}
    else AllRules(requirements[..|requirements| - 1]) + RulesOf(requirements[|requirements| - 1])
  }

  lemma RulesOneMore(requirements: seq<Requirement>, requirement: Requirement)
    ensures AllRules(requirements + [requirement]) == AllRules(requirements) + RulesOf(requirement)
  {
    assert (requirements + [requirement])[..|requirements|] == requirements;
  }

  lemma RulesAbsorb(target: Requirement, source: Requirement)
    ensures RulesOf(Absorb(target, source)) == RulesOf(target) + RulesOf(source)
  {
  }

  lemma {:induction false} RulesUpdate(requirements: seq<Requirement>, i: nat, source: Requirement)
    requires i < |requirements|
    ensures AllRules(requirements[i := Absorb(requirements[i], source)]) == AllRules(requirements) + RulesOf(source)
  {
    hide RulesOf, Absorb;
    var front, last := requirements[..|requirements| - 1], requirements[|requirements| - 1];
    var updated := requirements[i := Absorb(requirements[i], source)];
    if i == |requirements| - 1 {
      assert updated[..i] == front;
      RulesAbsorb(last, source);
    } else {
      assert updated[..|requirements| - 1] == front[i := Absorb(front[i], source)];
      RulesUpdate(front, i, source);
    }
  }

  lemma {:induction false} RulesRemoved(result: seq<Requirement>, path: Requirement)
    ensures AllRules(Removed(result, path).0) + RulesOf(Removed(result, path).1) == AllRules(result) + RulesOf(path)
  {
    hide Shadows, RulesOf, Absorb;
    if result != [] {
      var front, last := result[..|result| - 1], result[|result| - 1];
      if Shadows(path, last) {
        RulesAbsorb(path, last);
        RulesRemoved(front, Absorb(path, last));
      } else {
        RulesRemoved(front, path);
        RulesOneMore(Removed(front, path).0, last);
      }
    }
  }

  /** Pruning loses no rule that asked for a requirement, and makes up none. */
  lemma {:induction false} RulesConserved(requirements: seq<Requirement>)
    ensures AllRules(Pruned(requirements)) == AllRules(requirements)
  {
    hide Shadows, RulesOf, Absorb, IsPath;
    if requirements != [] {
      var front, last := requirements[..|requirements| - 1], requirements[|requirements| - 1];
      var result := Pruned(front);
      RulesConserved(front);
      if IsPath(last) {
        RulesRemoved(result, last);
        RulesOneMore(Removed(result, last).0, Removed(result, last).1);
      } else {
        var i := ShadowAt(result, last);
        if i < |result| {
          RulesUpdate(result, i, last);
        } else {
          RulesOneMore(result, last);
        }
      }
    }
  }
}
