/** The interfaces of a host: those with an address, one of each kind, and one main interface per type. */
module InterfaceSelection {
  import Text

  datatype HostInterface = HostInterface(
    kind: int, main: int, useIp: int, ip: string, dns: string, port: string, details: string)

  predicate HasAddress(item: HostInterface) {
    !Text.Blank(item.ip) || !Text.Blank(item.dns)
  }

  function Digits(n: nat): string {
    if n < 10 then ['0' + n as char] else Digits(n / 10) + ['0' + (n % 10) as char]
  }

  function IntText(n: int): string {
    if n < 0 then "-" + Digits(-n) else Digits(n)
  }

  /** What interfaces are told apart by, ignoring case. */
  function Key(item: HostInterface): string {
    Text.Fold(IntText(item.kind) + "|" + IntText(item.useIp) + "|" + item.ip + "|" + item.dns + "|" + item.port)
  }

  function WithAddress(items: seq<HostInterface>): seq<HostInterface> {
    if items == [] then []
    else (if HasAddress(items[0]) then [items[0]] else []) + WithAddress(items[1..])
  }

  function FirstOfEachKey(items: seq<HostInterface>, seen: set<string>): seq<HostInterface> {
    if items == [] then []
    else if Key(items[0]) in seen then FirstOfEachKey(items[1..], seen)
    else [items[0]] + FirstOfEachKey(items[1..], seen + {Key(items[0])})
  }

  function OfType(items: seq<HostInterface>, kind: int): seq<HostInterface> {
    if items == [] then []
    else (if items[0].kind == kind then [items[0]] else []) + OfType(items[1..], kind)
  }

  /** The types present, in order of first appearance. */
  function Types(items: seq<HostInterface>, seen: set<int>): seq<int> {
    if items == [] then []
    else if items[0].kind in seen then Types(items[1..], seen)
    else [items[0].kind] + Types(items[1..], seen + {items[0].kind})
  }

  predicate IsMain(item: HostInterface) {
    item.main == 1
  }

  /** The first configured main interface, or the first interface when none is configured. */
  function MainIndex(items: seq<HostInterface>): nat {
    if exists item :: item in items && IsMain(item) then FirstMain(items) else 0
  }

  function FirstMain(items: seq<HostInterface>): nat {
    if items == [] || IsMain(items[0]) then 0 else 1 + FirstMain(items[1..])
  }

  function Normalized(items: seq<HostInterface>): seq<HostInterface> {
    seq(|items|, i requires 0 <= i < |items| => items[i].(main := if i == MainIndex(items) then 1 else 0))
  }

  lemma {:induction false} FirstMainIndex(items: seq<HostInterface>)
    requires exists item :: item in items && IsMain(item)
    ensures FirstMain(items) < |items| && IsMain(items[FirstMain(items)])
    ensures forall i :: 0 <= i < FirstMain(items) ==> !IsMain(items[i])
  {
    if !IsMain(items[0]) {
      var item :| item in items && IsMain(item);
      assert items == [items[0]] + items[1..];
      FirstMainIndex(items[1..]);
    }
  }

  /** The loop of NormalizeInterfaceMainFlags. */
  method NormalizeInterfaceMainFlags(items: seq<HostInterface>) returns (normalized: seq<HostInterface>)
    ensures normalized == Normalized(items)
  {
    normalized := [];
    var hasConfiguredMain := exists item :: item in items && IsMain(item);
    if hasConfiguredMain {
      FirstMainIndex(items);
    }
    var mainSelected := false;
    for i := 0 to |items|
      invariant normalized == Normalized(items)[..i]
      invariant mainSelected <==> MainIndex(items) < i
    {
      var item := items[i];
      var main := !mainSelected && (IsMain(item) || !hasConfiguredMain);
      if main {
        mainSelected := true;
      }
      assert item in items;
      normalized := normalized + [if item.main == (if main then 1 else 0) then item
                                  else item.(main := if main then 1 else 0)];
    }
  }

  function Grouped(items: seq<HostInterface>, types: seq<int>): seq<HostInterface> {
    if types == [] then [] else Normalized(OfType(items, types[0])) + Grouped(items, types[1..])
  }

  function Unique(items: seq<HostInterface>): seq<HostInterface> {
    FirstOfEachKey(WithAddress(items), {})
  }

  /** SelectInterfaces, from the mapped interfaces on. */
  function SelectInterfaces(items: seq<HostInterface>): seq<HostInterface> {
    Grouped(Unique(items), Types(Unique(items), {}))
  }

  // ---------------------------------------------------------------- proofs

  /** An interface without its main flag. */
  function Plain(item: HostInterface): HostInterface {
    item.(main := 0)
  }

  ghost function PlainSet(items: seq<HostInterface>): set<HostInterface> {
    if items == [] then {} else {Plain(items[0])} + PlainSet(items[1..])
  }

  ghost function KeySet(items: seq<HostInterface>): set<string> {
    if items == [] then {} else {Key(items[0])} + KeySet(items[1..])
  }

  ghost predicate DistinctKeys(items: seq<HostInterface>) {
    items == [] || (Key(items[0]) !in KeySet(items[1..]) && DistinctKeys(items[1..]))
  }

  lemma {:induction false} KeySetHolds(items: seq<HostInterface>, i: nat)
    requires i < |items|
    ensures Key(items[i]) in KeySet(items) && Plain(items[i]) in PlainSet(items)
  {
    hide Key;
    if i > 0 {
      KeySetHolds(items[1..], i - 1);
    }
  }

  /** What distinct keys mean position by position. */
  lemma {:induction false} DistinctKeysAt(items: seq<HostInterface>, i: nat, j: nat)
    requires DistinctKeys(items) && i < j < |items|
    ensures Key(items[i]) != Key(items[j])
  {
    hide Key;
    if i == 0 {
      KeySetHolds(items[1..], j - 1);
    } else {
      DistinctKeysAt(items[1..], i - 1, j - 1);
    }
  }

  lemma {:induction false} SetsAppend(left: seq<HostInterface>, right: seq<HostInterface>)
    ensures KeySet(left + right) == KeySet(left) + KeySet(right)
    ensures PlainSet(left + right) == PlainSet(left) + PlainSet(right)
    ensures DistinctKeys(left) && DistinctKeys(right) && KeySet(left) !! KeySet(right) ==> DistinctKeys(left + right)
  {
    hide Key, Plain;
    if left == [] {
      assert left + right == right;
    } else {
      assert (left + right)[1..] == left[1..] + right;
      SetsAppend(left[1..], right);
    }
  }

  /** Keys do not see the main flag. */
  lemma {:induction false} SamePlains(left: seq<HostInterface>, right: seq<HostInterface>)
    requires |left| == |right| && forall i :: 0 <= i < |left| ==> Plain(left[i]) == Plain(right[i])
    ensures KeySet(left) == KeySet(right) && PlainSet(left) == PlainSet(right)
    ensures DistinctKeys(left) <==> DistinctKeys(right)
  {
    if left != [] {
      SamePlains(left[1..], right[1..]);
      assert Plain(left[0]) == Plain(right[0]);
      assert Key(left[0]) == Key(right[0]);
    }
  }

  lemma NormalizedPlains(items: seq<HostInterface>)
    ensures KeySet(Normalized(items)) == KeySet(items) && PlainSet(Normalized(items)) == PlainSet(items)
    ensures DistinctKeys(Normalized(items)) <==> DistinctKeys(items)
  {
    SamePlains(Normalized(items), items);
  }

  lemma {:induction false} TypesShape(items: seq<HostInterface>, seen: set<int>)
    ensures forall k :: k in Types(items, seen) <==> k !in seen && OfType(items, k) != []
    ensures forall i, j :: 0 <= i < j < |Types(items, seen)| ==> Types(items, seen)[i] != Types(items, seen)[j]
  {
    if items != [] {
      if items[0].kind in seen {
        TypesShape(items[1..], seen);
      } else {
        TypesShape(items[1..], seen + {items[0].kind});
      }
    }
  }

  lemma {:induction false} OfTypeAppend(left: seq<HostInterface>, right: seq<HostInterface>, kind: int)
    ensures OfType(left + right, kind) == OfType(left, kind) + OfType(right, kind)
  {
    if left == [] {
      assert left + right == right;
    } else {
      assert (left + right)[1..] == left[1..] + right;
      OfTypeAppend(left[1..], right, kind);
      var head, a, b := if left[0].kind == kind then [left[0]] else [], OfType(left[1..], kind), OfType(right, kind);
      assert head + (a + b) == (head + a) + b;
    }
  }

  lemma {:induction false} OfTypeElements(items: seq<HostInterface>, kind: int)
    ensures forall x :: x in OfType(items, kind) <==> x in items && x.kind == kind
  {
    if items != [] {
      assert items == [items[0]] + items[1..];
      OfTypeElements(items[1..], kind);
    }
  }

  lemma {:induction false} OfTypeUniform(items: seq<HostInterface>, s: int, kind: int)
    requires forall x :: x in items ==> x.kind == s
    ensures OfType(items, kind) == if s == kind then items else []
  {
    if items != [] {
      OfTypeUniform(items[1..], s, kind);
    }
  }

  /** What each type ends up with is the normalized form of what it had. */
  lemma {:induction false} OfTypeGrouped(items: seq<HostInterface>, types: seq<int>, kind: int)
    requires forall i, j :: 0 <= i < j < |types| ==> types[i] != types[j]
    ensures OfType(Grouped(items, types), kind) == if kind in types then Normalized(OfType(items, kind)) else []
  {
    if types != [] {
      var head := Normalized(OfType(items, types[0]));
      OfTypeGrouped(items, types[1..], kind);
      OfTypeAppend(head, Grouped(items, types[1..]), kind);
      OfTypeElements(items, types[0]);
      forall x | x in head
        ensures x.kind == types[0]
      {
        var i :| 0 <= i < |head| && head[i] == x;
        assert OfType(items, types[0])[i] in OfType(items, types[0]);
      }
      OfTypeUniform(head, types[0], kind);
      assert kind == types[0] ==> kind !in types[1..];
    }
  }

  /** Exactly one interface of a non-empty group is main: the first configured main one, else the first. */
  lemma NormalizedOneMain(items: seq<HostInterface>)
    requires items != []
    ensures MainIndex(items) < |items|
    ensures forall i :: 0 <= i < |items| ==> (Normalized(items)[i].main == if i == MainIndex(items) then 1 else 0)
    ensures forall i :: 0 <= i < MainIndex(items) ==> !IsMain(items[i])
    ensures IsMain(items[MainIndex(items)]) || forall i :: 0 <= i < |items| ==> !IsMain(items[i])
  {
    if item :| item in items && IsMain(item) {
      FirstMainIndex(items);
    } else {
      forall i | 0 <= i < |items|
        ensures !IsMain(items[i])
      {
        assert items[i] in items;
      }
    }
  }

  /** For every type, what is selected is the normalized form of the distinct interfaces of that type. */
  lemma SelectedOfType(items: seq<HostInterface>, kind: int)
    ensures OfType(SelectInterfaces(items), kind) == Normalized(OfType(Unique(items), kind))
  {
    hide Unique;
    TypesShape(Unique(items), {});
    OfTypeGrouped(Unique(items), Types(Unique(items), {}), kind);
  }

  /** Exactly one main interface for every type present: the first configured one, else the first. */
  lemma OneMainPerType(items: seq<HostInterface>, kind: int)
    requires OfType(SelectInterfaces(items), kind) != []
    ensures var before, after := OfType(Unique(items), kind), OfType(SelectInterfaces(items), kind);
            var m := MainIndex(before);
            && |after| == |before| && m < |after|
            && (forall i :: 0 <= i < |after| ==> after[i].main == if i == m then 1 else 0)
            && (forall i :: 0 <= i < m ==> !IsMain(before[i]))
            && (IsMain(before[m]) || forall i :: 0 <= i < |before| ==> !IsMain(before[i]))
  {
    hide Unique, SelectInterfaces, OfType, MainIndex;
    SelectedOfType(items, kind);
    NormalizedOneMain(OfType(Unique(items), kind));
  }

  lemma {:induction false} FirstOfEachKeyShape(items: seq<HostInterface>, seen: set<string>)
    ensures KeySet(FirstOfEachKey(items, seen)) == KeySet(items) - seen
    ensures PlainSet(FirstOfEachKey(items, seen)) <= PlainSet(items)
    ensures DistinctKeys(FirstOfEachKey(items, seen))
  {
    hide Key, Plain;
    if items != [] {
      var rest := FirstOfEachKey(items[1..], seen + {Key(items[0])});
      assert ([items[0]] + rest)[1..] == rest;
      FirstOfEachKeyShape(items[1..], seen + {Key(items[0])});
      FirstOfEachKeyShape(items[1..], seen);
    }
  }

  /** Of the interfaces with one key the first is kept. */
  lemma {:induction false} FirstOfEachKeyKeeps(items: seq<HostInterface>, seen: set<string>, i: nat)
    requires i < |items| && Key(items[i]) !in seen && forall j :: 0 <= j < i ==> Key(items[j]) != Key(items[i])
    ensures Plain(items[i]) in PlainSet(FirstOfEachKey(items, seen))
  {
    hide Key, Plain;
    var rest := FirstOfEachKey(items[1..], seen + {Key(items[0])});
    assert ([items[0]] + rest)[1..] == rest;
    if i > 0 {
      assert Key(items[0]) != Key(items[i]);
      assert items[1..][i - 1] == items[i];
      FirstOfEachKeyKeeps(items[1..], if Key(items[0]) in seen then seen else seen + {Key(items[0])}, i - 1);
    }
  }

  lemma {:induction false} OfTypeDistinct(items: seq<HostInterface>, kind: int)
    requires DistinctKeys(items)
    ensures DistinctKeys(OfType(items, kind)) && KeySet(OfType(items, kind)) <= KeySet(items)
  {
    hide Key;
    if items != [] {
      OfTypeDistinct(items[1..], kind);
      var rest := OfType(items[1..], kind);
      assert ([items[0]] + rest)[1..] == rest && [] + rest == rest;
    }
  }

  lemma {:induction false} TypesApart(items: seq<HostInterface>, k: int, t: int)
    requires DistinctKeys(items) && k != t
    ensures KeySet(OfType(items, k)) !! KeySet(OfType(items, t))
  {
    hide Key;
    if items != [] {
      TypesApart(items[1..], k, t);
      OfTypeDistinct(items[1..], k);
      OfTypeDistinct(items[1..], t);
      var left, right := OfType(items[1..], k), OfType(items[1..], t);
      assert ([items[0]] + left)[1..] == left && [] + left == left;
      assert ([items[0]] + right)[1..] == right && [] + right == right;
    }
  }

  lemma {:induction false} GroupedApart(items: seq<HostInterface>, k: int, types: seq<int>)
    requires DistinctKeys(items) && k !in types
    ensures KeySet(OfType(items, k)) !! KeySet(Grouped(items, types))
  {
    hide Key, Normalized, DistinctKeys, OfType;
    if types != [] {
      var head, rest := Normalized(OfType(items, types[0])), Grouped(items, types[1..]);
      GroupedApart(items, k, types[1..]);
      TypesApart(items, k, types[0]);
      NormalizedPlains(OfType(items, types[0]));
      SetsAppend(head, rest);
    }
  }

  lemma {:induction false} GroupedDistinct(items: seq<HostInterface>, types: seq<int>)
    requires DistinctKeys(items) && forall i, j :: 0 <= i < j < |types| ==> types[i] != types[j]
    ensures DistinctKeys(Grouped(items, types))
  {
    hide Key, Normalized, OfType;
    if types != [] {
      var head, rest := Normalized(OfType(items, types[0])), Grouped(items, types[1..]);
      GroupedDistinct(items, types[1..]);
      OfTypeDistinct(items, types[0]);
      NormalizedPlains(OfType(items, types[0]));
      GroupedApart(items, types[0], types[1..]);
      SetsAppend(head, rest);
    }
  }

  /** One more interface is one more member of its group. */
  lemma {:induction false} GroupedSplit(items: seq<HostInterface>, types: seq<int>)
    requires items != []
    ensures PlainSet(Grouped(items, types)) ==
              PlainSet(Grouped(items[1..], types)) + (if items[0].kind in types then {Plain(items[0])} else {})
    ensures KeySet(Grouped(items, types)) ==
              KeySet(Grouped(items[1..], types)) + (if items[0].kind in types then {Key(items[0])} else {})
  {
    hide Key, Plain, Normalized;
    if types != [] {
      GroupedSplit(items, types[1..]);
      var group, less := OfType(items, types[0]), OfType(items[1..], types[0]);
      SetsAppend(Normalized(group), Grouped(items, types[1..]));
      SetsAppend(Normalized(less), Grouped(items[1..], types[1..]));
      NormalizedPlains(group);
      NormalizedPlains(less);
      assert ([items[0]] + less)[1..] == less && [] + less == less;
    }
  }

  /** Grouping by all types present loses nothing but main flags. */
  lemma {:induction false} GroupedKeeps(items: seq<HostInterface>, types: seq<int>)
    requires forall k :: OfType(items, k) != [] ==> k in types
    ensures PlainSet(Grouped(items, types)) == PlainSet(items) && KeySet(Grouped(items, types)) == KeySet(items)
  {
    hide Key, Plain;
    if items == [] {
      GroupedNothing(types);
    } else {
      forall k | OfType(items[1..], k) != []
        ensures k in types
      {
        assert OfType(items, k) != [];
      }
      GroupedSplit(items, types);
      assert OfType(items, items[0].kind) != [];
      GroupedKeeps(items[1..], types);
    }
  }

  lemma {:induction false} GroupedNothing(types: seq<int>)
    ensures Grouped([], types) == []
  {
    if types != [] {
      GroupedNothing(types[1..]);
    }
  }

  /** No two selected interfaces share type, useip, ip, dns and port; each one is a given interface with an address,
      changed in its main flag only; and no address is lost. */
  lemma SelectedInterfaces(items: seq<HostInterface>)
    ensures DistinctKeys(SelectInterfaces(items))
    ensures forall i, j :: 0 <= i < j < |SelectInterfaces(items)| ==>
              Key(SelectInterfaces(items)[i]) != Key(SelectInterfaces(items)[j])
    ensures PlainSet(SelectInterfaces(items)) <= PlainSet(WithAddress(items))
    ensures KeySet(SelectInterfaces(items)) == KeySet(WithAddress(items))
  {
    hide SelectInterfaces;
    SelectedShape(items);
    forall i, j | 0 <= i < j < |SelectInterfaces(items)|
      ensures Key(SelectInterfaces(items)[i]) != Key(SelectInterfaces(items)[j])
    {
      DistinctKeysAt(SelectInterfaces(items), i, j);
    }
  }

  lemma SelectedShape(items: seq<HostInterface>)
    ensures DistinctKeys(SelectInterfaces(items))
    ensures PlainSet(SelectInterfaces(items)) <= PlainSet(WithAddress(items))
    ensures KeySet(SelectInterfaces(items)) == KeySet(WithAddress(items))
  {
    hide Key, Plain, HasAddress, WithAddress, Grouped, Types, OfType;
    var unique := Unique(items);
    FirstOfEachKeyShape(WithAddress(items), {});
    TypesShape(unique, {});
    GroupedDistinct(unique, Types(unique, {}));
    GroupedKeeps(unique, Types(unique, {}));
  }

  /** Of the interfaces that share a key the first one is sent. */
  lemma FirstIsSelected(items: seq<HostInterface>, i: nat)
    requires i < |WithAddress(items)|
    requires forall j :: 0 <= j < i ==> Key(WithAddress(items)[j]) != Key(WithAddress(items)[i])
    ensures Plain(WithAddress(items)[i]) in PlainSet(SelectInterfaces(items))
  {
    hide Key, Plain, HasAddress, WithAddress, Grouped, Types, OfType;
    var unique := Unique(items);
    TypesShape(unique, {});
    FirstOfEachKeyKeeps(WithAddress(items), {}, i);
    GroupedKeeps(unique, Types(unique, {}));
  }

  lemma {:induction false} WithAddressElements(items: seq<HostInterface>)
    ensures forall x :: x in WithAddress(items) <==> x in items && HasAddress(x)
  {
    hide HasAddress;
    if items != [] {
      assert items == [items[0]] + items[1..];
      WithAddressElements(items[1..]);
    }
  }

  // ---------------------------------------------------------------- selecting again

  lemma {:induction false} WithAddressAll(items: seq<HostInterface>)
    requires forall x :: x in items ==> HasAddress(x)
    ensures WithAddress(items) == items
  {
    hide HasAddress;
    if items != [] {
      WithAddressAll(items[1..]);
    }
  }

  lemma {:induction false} AllWithAddress(items: seq<HostInterface>)
    requires forall x :: x in PlainSet(items) ==> HasAddress(x)
    ensures forall x :: x in items ==> HasAddress(x)
  {
    forall x | x in items
      ensures HasAddress(x)
    {
      var i :| 0 <= i < |items| && items[i] == x;
      KeySetHolds(items, i);
      assert HasAddress(Plain(x));
    }
  }

  lemma {:induction false} PlainSetOf(items: seq<HostInterface>)
    requires forall x :: x in items ==> HasAddress(x)
    ensures forall x :: x in PlainSet(items) ==> HasAddress(x)
  {
    if items != [] {
      assert items[0] in items;
      assert HasAddress(Plain(items[0]));
      PlainSetOf(items[1..]);
    }
  }

  lemma {:induction false} FirstOfEachKeyAll(items: seq<HostInterface>, seen: set<string>)
    requires DistinctKeys(items) && KeySet(items) !! seen
    ensures FirstOfEachKey(items, seen) == items
  {
    hide Key;
    if items != [] {
      FirstOfEachKeyAll(items[1..], seen + {Key(items[0])});
    }
  }

  lemma {:induction false} TypesSkip(left: seq<HostInterface>, right: seq<HostInterface>, seen: set<int>)
    requires forall x :: x in left ==> x.kind in seen
    ensures Types(left + right, seen) == Types(right, seen)
  {
    if left == [] {
      assert left + right == right;
    } else {
      assert (left + right)[1..] == left[1..] + right;
      TypesSkip(left[1..], right, seen);
    }
  }

  lemma OfTypeNormalized(items: seq<HostInterface>, kind: int)
    ensures forall x :: x in Normalized(OfType(items, kind)) ==> x.kind == kind
  {
    hide MainIndex;
    var group := OfType(items, kind);
    OfTypeElements(items, kind);
    forall x | x in Normalized(group)
      ensures x.kind == kind
    {
      var i :| 0 <= i < |group| && Normalized(group)[i] == x;
      assert group[i] in group;
    }
  }

  lemma {:induction false} TypesGrouped(items: seq<HostInterface>, types: seq<int>, seen: set<int>)
    requires forall i, j :: 0 <= i < j < |types| ==> types[i] != types[j]
    requires forall k :: k in types ==> k !in seen && OfType(items, k) != []
    ensures Types(Grouped(items, types), seen) == types
  {
    hide OfType, MainIndex;
    if types != [] {
      var head, rest := Normalized(OfType(items, types[0])), Grouped(items, types[1..]);
      OfTypeNormalized(items, types[0]);
      assert OfType(items, types[0]) != [];
      assert head[0] in head;
      assert (head + rest)[1..] == head[1..] + rest;
      TypesSkip(head[1..], rest, seen + {types[0]});
      TypesGrouped(items, types[1..], seen + {types[0]});
    }
  }

  lemma NormalizedAgain(items: seq<HostInterface>)
    ensures Normalized(Normalized(items)) == Normalized(items)
  {
    if items != [] {
      var m := MainIndex(items);
      if item :| item in items && IsMain(item) {
        FirstMainIndex(items);
      }
      var once := Normalized(items);
      assert IsMain(once[m]) && once[m] in once;
      FirstMainIndex(once);
      assert MainIndex(once) == m;
    }
  }

  lemma {:induction false} GroupedAgain(before: seq<HostInterface>, after: seq<HostInterface>, types: seq<int>)
    requires forall k :: k in types ==> OfType(after, k) == Normalized(OfType(before, k))
    ensures Grouped(after, types) == Grouped(before, types)
  {
    if types != [] {
      NormalizedAgain(OfType(before, types[0]));
      GroupedAgain(before, after, types[1..]);
    }
  }

  /** Selecting from the selected interfaces changes nothing. */
  lemma SelectInterfacesAgain(items: seq<HostInterface>)
    ensures SelectInterfaces(SelectInterfaces(items)) == SelectInterfaces(items)
  {
    hide Key, HasAddress, Normalized, WithAddress, Grouped, Types, OfType, PlainSet, KeySet, DistinctKeys;
    var unique, selected := Unique(items), SelectInterfaces(items);
    var types := Types(unique, {});
    SelectedShape(items);
    WithAddressElements(items);
    PlainSetOf(WithAddress(items));
    AllWithAddress(selected);
    WithAddressAll(selected);
    FirstOfEachKeyAll(selected, {});
    TypesShape(unique, {});
    TypesGrouped(unique, types, {});
    forall k | k in types
      ensures OfType(selected, k) == Normalized(OfType(unique, k))
    {
      SelectedOfType(items, k);
    }
    GroupedAgain(unique, selected, types);
  }
}
