/** The loops of the host group resolver: creating the groups that are missing, and writing each group once. */
module HostGroupWriter {
  import opened Text
  import opened JsonModel
  import ZabbixRequest
  import opened ZabbixApi
  import opened HostGroupResolver

  /** What the worker receives is what its own document says; a message that is no object is not received. */
  lemma ReadIsConsistent(key: Option<string>, root: Json, hostOverride: Option<string>)
    ensures var read := ZabbixRequest.Read(key, root, hostOverride);
            (read.Some? <==> root.Obj?) && (read.Some? ==> Consistent(read.value) && read.value.root == root)
  {
  }

  lemma {:induction false} ResolvedGroupsSplit(
    left: seq<Json>, right: seq<Json>, resolved: map<string, string>, written: set<string>)
    ensures ResolvedGroups(left + right, resolved, written) ==
            ResolvedGroups(left, resolved, written) +
              ResolvedGroups(right, resolved, written + ResolvedIds(left, resolved))
  {
    hide ResolvedId, Fold;
    if left == [] {
      assert left + right == right && written + {} == written;
    } else {
      assert (left + right)[1..] == left[1..] + right;
      var id := ResolvedId(left[0], resolved);
      if id.None? {
        ResolvedGroupsSplit(left[1..], right, resolved, written);
        assert ResolvedIds(left, resolved) == ResolvedIds(left[1..], resolved);
      } else {
        var more := written + {Fold(id.value)};
        assert more + ResolvedIds(left[1..], resolved) == written + ResolvedIds(left, resolved);
        ResolvedGroupsSplit(left[1..], right, resolved, if Fold(id.value) in written then written else more);
        assert Fold(id.value) in written ==> more == written;
      }
    }
  }

  /** The ids groups are written with, case-folded. */
  function ResolvedIds(groups: seq<Json>, resolved: map<string, string>): set<string> {
    if groups == [] then {}
    else
      var id := ResolvedId(groups[0], resolved);
      (if id.Some? then {Fold(id.value)} else {}) + ResolvedIds(groups[1..], resolved)
  }

  lemma {:induction false} ResolvedIdsAppend(left: seq<Json>, right: seq<Json>, resolved: map<string, string>)
    ensures ResolvedIds(left + right, resolved) == ResolvedIds(left, resolved) + ResolvedIds(right, resolved)
  {
    hide ResolvedId, Fold;
    if left == [] {
      assert left + right == right;
    } else {
      assert (left + right)[1..] == left[1..] + right;
      ResolvedIdsAppend(left[1..], right, resolved);
    }
  }

  /** The loop of WriteResolvedGroups, with the ids written so far. */
  method WriteResolvedGroups(groups: seq<Json>, resolved: map<string, string>) returns (output: seq<Json>)
    ensures output == ResolvedGroups(groups, resolved, {})
  {
    hide ResolvedId, Fold, KeyOnly;
    output := [];
    var writtenGroupIds: set<string> := {};
    for i := 0 to |groups|
      invariant output == ResolvedGroups(groups[..i], resolved, {})
      invariant writtenGroupIds == ResolvedIds(groups[..i], resolved)
    {
      var group := groups[i];
      var id := ResolvedId(group, resolved);
      assert groups[..i + 1] == groups[..i] + [group] && [group][1..] == [];
      ResolvedGroupsSplit(groups[..i], [group], resolved, {});
      ResolvedIdsAppend(groups[..i], [group], resolved);
      assert {} + ResolvedIds(groups[..i], resolved) == writtenGroupIds;
      if id.None? {
        output := output + [group];
      } else if Fold(id.value) !in writtenGroupIds {
        output := output + [KeyOnly("groupid", id.value)];
        writtenGroupIds := writtenGroupIds + {Fold(id.value)};
      }
    }
    assert groups[..|groups|] == groups;
  }

  /** The creation loop of ResolveAsync. */
  method CreateMissingGroups(oracle: Oracle, log: seq<Event>, groups: seq<Json>, existing: map<string, string>)
    returns (run: Run<map<string, string>>)
    ensures run == CreateMissing(oracle, log, groups, existing)
  {
    hide Fold, CreateHostGroup;
    var resolved, events := existing, log;
    for i := 0 to |groups|
      invariant CreateMissing(oracle, log, groups, existing) == CreateMissing(oracle, events, groups[i..], resolved)
    {
      var group := groups[i];
      assert groups[i..][0] == group && groups[i..][1..] == groups[i + 1..];
      var name := ReadString(group, "name");
      if !Missing(name) && Fold(name.value) !in resolved && ZabbixRequest.ReadBool(group, "createIfMissing") {
        var created := CreateHostGroup(oracle, events, name.value);
        if created.Thrown? {
          return Thrown(created.log);
        }
        events := created.log;
        resolved := resolved[Fold(name.value) := created.value];
      }
    }
    run := Done(events, resolved);
  }

  // ---------------------------------------------------------------- which groups are created

  /** A group that is given by name and may be created. */
  predicate IsFlagged(group: Json) {
    !Missing(ReadString(group, "name")) && ZabbixRequest.ReadBool(group, "createIfMissing")
  }

  /** The names of the groups that may be created, up to case. */
  ghost function FlaggedNames(groups: seq<Json>): set<string> {
    if groups == [] then {}
    else (if IsFlagged(groups[0]) then {Fold(ReadString(groups[0], "name").value)} else {}) + FlaggedNames(groups[1..])
  }

  /** The names a log creates groups for, up to case. */
  ghost function CreatedNames(log: seq<Event>): seq<string> {
    if log == [] then []
    else (if log[0].CreateGroup? then [Fold(log[0].name)] else []) + CreatedNames(log[1..])
  }

  ghost predicate OnlyCreates(log: seq<Event>, ids: map<string, string>) {
    forall e :: e in log ==>
      e.CreateGroup? && e.created.Returns? && Fold(e.name) in ids && ids[Fold(e.name)] == e.created.value
  }

  /** Every flagged group that is not there is created, once for all spellings of its name, and no other; then every
      flagged name has an id, the one it had before or the one of its creation. */
  ghost predicate Creates(
    groups: seq<Json>, existing: map<string, string>, added: seq<Event>, ids: map<string, string>) {
    && OnlyCreates(added, ids) && NoRepeats(CreatedNames(added))
    && (forall name :: name in CreatedNames(added) <==> name in FlaggedNames(groups) && name !in existing)
    && ids.Keys == existing.Keys + FlaggedNames(groups)
    && forall name :: name in existing ==> ids[name] == existing[name]
  }

  lemma NothingToCreate(existing: map<string, string>)
    ensures Creates([], existing, [], existing)
  {
  }

  lemma OneNotCreated(groups: seq<Json>, existing: map<string, string>, added: seq<Event>, ids: map<string, string>)
    requires groups != [] && Creates(groups[1..], existing, added, ids)
    requires IsFlagged(groups[0]) ==> Fold(ReadString(groups[0], "name").value) in existing
    ensures Creates(groups, existing, added, ids)
  {
    hide Fold, ReadString, ZabbixRequest.ReadBool, Missing, CreatedNames, OnlyCreates, NoRepeats;
  }

  lemma OneCreated(
    groups: seq<Json>, existing: map<string, string>, event: Event, rest: seq<Event>, ids: map<string, string>)
    requires groups != [] && IsFlagged(groups[0]) && event.CreateGroup? && event.created.Returns?
    requires event.name == ReadString(groups[0], "name").value && Fold(event.name) !in existing
    requires Creates(groups[1..], existing[Fold(event.name) := event.created.value], rest, ids)
    ensures Creates(groups, existing, [event] + rest, ids)
  {
    hide Fold, ReadString, ZabbixRequest.ReadBool, Missing;
    var names := CreatedNames(rest);
    assert ([event] + rest)[1..] == rest;
    assert CreatedNames([event] + rest) == [Fold(event.name)] + names;
    hide CreatedNames;
  }

  lemma {:induction false} CreatesMissingExactly(
    oracle: Oracle, log: seq<Event>, groups: seq<Json>, existing: map<string, string>) returns (added: seq<Event>)
    requires CreateMissing(oracle, log, groups, existing).Done?
    ensures var run := CreateMissing(oracle, log, groups, existing);
            run.log == log + added && Creates(groups, existing, added, run.value)
    decreases |groups|
  {
    hide Fold, ReadString, ZabbixRequest.ReadBool, Creates;
    if groups == [] {
      added := [];
      NothingToCreate(existing);
    } else if !IsFlagged(groups[0]) || Fold(ReadString(groups[0], "name").value) in existing {
      added := CreatesMissingExactly(oracle, log, groups[1..], existing);
      OneNotCreated(groups, existing, added, CreateMissing(oracle, log, groups, existing).value);
    } else {
      var name := ReadString(groups[0], "name").value;
      var created := CreateHostGroup(oracle, log, name);
      var rest := CreatesMissingExactly(oracle, created.log, groups[1..], existing[Fold(name) := created.value]);
      var event := CreateGroup(name, Returns(created.value));
      added := [event] + rest;
      assert log + added == created.log + rest;
      OneCreated(groups, existing, event, rest, CreateMissing(oracle, log, groups, existing).value);
    }
  }

  // ---------------------------------------------------------------- every group once

  function GroupId(group: Json): Option<string> {
    var id := ReadString(group, "groupid");
    if Missing(id) then None else Some(Fold(id.value))
  }

  function GroupIds(groups: seq<Json>): set<string> {
    if groups == [] then {}
    else (if GroupId(groups[0]).Some? then {GroupId(groups[0]).value} else {}) + GroupIds(groups[1..])
  }

  /** No id comes twice. */
  ghost predicate EachOnce(groups: seq<Json>) {
    groups == [] ||
    ((GroupId(groups[0]).Some? ==> GroupId(groups[0]).value !in GroupIds(groups[1..])) && EachOnce(groups[1..]))
  }

  ghost predicate NoBlankIds(resolved: map<string, string>) {
    forall name :: name in resolved ==> !Blank(resolved[name])
  }

  lemma WrittenId(group: Json, resolved: map<string, string>)
    requires NoBlankIds(resolved)
    ensures var id := ResolvedId(group, resolved);
            if id.None? then GroupId(group) == None else GroupId(KeyOnly("groupid", id.value)) == Some(Fold(id.value))
  {
    var id := ResolvedId(group, resolved);
    if id.Some? {
      ReadKeyOnly("groupid", id.value);
    }
    hide ReadString, KeyOnly, Fold;
  }

  /** The groups sent are exactly the ids given and found, each of them once; a group without either is sent as it
      is. */
  lemma {:induction false} GroupsSentOnce(groups: seq<Json>, resolved: map<string, string>, written: set<string>)
    requires NoBlankIds(resolved)
    ensures var output := ResolvedGroups(groups, resolved, written);
            EachOnce(output) && GroupIds(output) == ResolvedIds(groups, resolved) - written
  {
    hide ResolvedId, Fold, KeyOnly, GroupId, NoBlankIds;
    if groups != [] {
      var id := ResolvedId(groups[0], resolved);
      WrittenId(groups[0], resolved);
      if id.None? {
        GroupsSentOnce(groups[1..], resolved, written);
        var rest := ResolvedGroups(groups[1..], resolved, written);
        assert ([groups[0]] + rest)[1..] == rest;
      } else if Fold(id.value) in written {
        GroupsSentOnce(groups[1..], resolved, written);
      } else {
        GroupsSentOnce(groups[1..], resolved, written + {Fold(id.value)});
        var rest := ResolvedGroups(groups[1..], resolved, written + {Fold(id.value)});
        assert ([KeyOnly("groupid", id.value)] + rest)[1..] == rest;
      }
    }
  }
}
