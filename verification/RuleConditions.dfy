/** Conversion rule conditions, and the profile each profile-scoped rule is bound to. */
module RuleConditions {
  import opened Text

  datatype Condition = Condition(operation: string, items: seq<Condition>, field: string, value: string,
                                 pattern: string)

  /** An event: its source fields and built-in fields by case-folded name, and the regular expressions
      its values match. */
  datatype Source = Source(fields: map<string, string>, builtIn: map<string, string>, matches: (string, string) -> bool)

  function WithoutUnderscores(s: string): string {
    if s == [] then [] else (if s[0] == '_' then [] else [s[0]]) + WithoutUnderscores(s[1..])
  }

  /** CanonicalFieldName for a name without underscores, case-folded. */
  const CANONICAL_FIELDS := map[
    "entityid" := "entityid", "id" := "entityid", "classname" := "classname", "class" := "classname",
    "ipaddress" := "ipaddress", "dnsname" := "dnsname", "fqdn" := "dnsname", "hostname" := "dnsname",
    "hostdns" := "dnsname",
    "profileipaddress" := "profileipaddress", "profileip" := "profileipaddress", "profile" := "profileipaddress",
    "profile2ipaddress" := "profile2ipaddress", "profile2ip" := "profile2ipaddress", "profile2" := "profile2ipaddress",
    "interfaceipaddress" := "interfaceipaddress", "interfaceip" := "interfaceipaddress",
    "interface" := "interfaceipaddress",
    "interface2ipaddress" := "interface2ipaddress", "interface2ip" := "interface2ipaddress",
    "interface2" := "interface2ipaddress",
    "profilednsname" := "profilednsname", "profiledns" := "profilednsname", "zabbixhostid" := "zabbixhostid",
    "os" := "os", "operatingsystem" := "os", "zabbixtag" := "zabbixtag"]

  function CanonicalFieldName(field: string): string {
    var name := Fold(WithoutUnderscores(field));
    if name in CANONICAL_FIELDS then CANONICAL_FIELDS[name] else Fold(field)
  }

  /** The spellings under which the event's own fields are read. */
  const BUILT_IN_FIELDS := map[
    "source" := "source", "eventtype" := "eventtype", "entitytype" := "entitytype", "entityid" := "entityid",
    "id" := "entityid",
    "code" := "code", "classname" := "classname", "class" := "classname", "ipaddress" := "ipaddress",
    "ip_address" := "ipaddress",
    "dnsname" := "dnsname", "dns_name" := "dnsname", "fqdn" := "dnsname", "hostname" := "dnsname",
    "host_dns" := "dnsname",
    "zabbixhostid" := "zabbixhostid", "zabbix_hostid" := "zabbixhostid", "description" := "description",
    "os" := "os", "operatingsystem" := "os", "operating_system" := "os", "zabbixtag" := "zabbixtag",
    "zabbix_tag" := "zabbixtag"]

  function ReadField(source: Source, field: string): Option<string> {
    if Fold(field) in source.fields then Some(source.fields[Fold(field)])
    else if CanonicalFieldName(field) in source.fields then Some(source.fields[CanonicalFieldName(field)])
    else if Fold(field) in BUILT_IN_FIELDS && BUILT_IN_FIELDS[Fold(field)] in source.builtIn then
      Some(source.builtIn[BUILT_IN_FIELDS[Fold(field)]])
    else None
  }

  function Operation(c: Condition): string {
    Fold(Trim(c.operation))
  }

  predicate Matches(source: Source, c: Condition) {
    var value := ReadField(source, c.field);
    var operation := Operation(c);
    if operation == "always" then true
    else if operation == "all" then c.items != [] && forall item :: item in c.items ==> Matches(source, item)
    else if operation == "any" then c.items != [] && exists item :: item in c.items && Matches(source, item)
    else if operation == "not" then |c.items| == 1 && !Matches(source, c.items[0])
    else if operation == "exists" then !Missing(value)
    else if operation == "empty" then Missing(value)
    else if operation == "equals" then !Missing(value) && Same(value.value, c.value)
    else if operation == "notequals" then !Missing(value) && !Same(value.value, c.value)
    else if operation == "regex" then !Missing(value) && source.matches(value.value, c.pattern)
    else if operation == "notregex" then !Missing(value) && !source.matches(value.value, c.pattern)
    else false
  }

  // ---------------------------------------------------------------- the profile a rule requires

  predicate IsHostProfileField(field: string) {
    Fold(WithoutUnderscores(field)) == "hostprofile"
  }

  function RequiredValues(c: Condition): seq<string> {
    if Operation(c) == "all" then RequiredValuesOf(c.items)
    else if Operation(c) == "equals" && IsHostProfileField(c.field) && !Blank(c.value) then [c.value]
    else []
  }

  function RequiredValuesOf(items: seq<Condition>): seq<string> {
    if items == [] then [] else RequiredValues(items[0]) + RequiredValuesOf(items[1..])
  }

  /** CollectRequiredHostProfileValues adds to a list as it walks the tree. */
  method CollectRequiredHostProfileValues(c: Condition, found: seq<string>) returns (values: seq<string>)
    ensures values == found + RequiredValues(c)
    decreases c
  {
    values := found;
    if Operation(c) == "all" {
      for i := 0 to |c.items|
        invariant values + RequiredValuesOf(c.items[i..]) == found + RequiredValuesOf(c.items)
      {
        ghost var before := values;
        values := CollectRequiredHostProfileValues(c.items[i], values);
        assert c.items[i..][1..] == c.items[i + 1..];
        assert before + (RequiredValues(c.items[i]) + RequiredValuesOf(c.items[i + 1..]))
               == values + RequiredValuesOf(c.items[i + 1..]);
      }
      return;
    }
    if Operation(c) == "equals" && IsHostProfileField(c.field) && !Blank(c.value) {
      values := values + [c.value];
    }
  }

  /** RequiredHostProfileName; empty when there is none or more than one. The root operator is not trimmed. */
  function RequiredHostProfileName(c: Condition): string {
    if Fold(c.operation) != "all" then ""
    else
      var unique := Text.Distinct(RequiredValues(c));
      if |unique| == 1 then unique[0] else ""
  }

  predicate KnownProfile(c: Condition, profiles: seq<string>) {
    !Blank(RequiredHostProfileName(c)) && Holds(profiles, RequiredHostProfileName(c))
  }

  predicate MatchesProfile(c: Condition, profiles: seq<string>, profileName: Option<string>) {
    !Missing(profileName) && KnownProfile(c, profiles) && Same(RequiredHostProfileName(c), profileName.value)
  }

  predicate MatchesSelectionRule(source: Source, profiles: seq<string>, c: Condition) {
    MatchesProfile(c, profiles, ReadField(source, "hostProfile")) && Matches(source, c)
  }

  predicate IsSpelling(source: Source, name: string) {
    && name in source.fields && Fold(name) == name && WithoutUnderscores(name) == "hostprofile"
    && !Blank(source.fields[name])
  }

  /** Every source field that is a spelling of hostProfile and not blank holds what hostProfile holds. */
  ghost predicate SpellingsAgree(source: Source) {
    forall name :: IsSpelling(source, name) ==> AgreesWithProfile(source, source.fields[name])
  }

  /** The value is the event's host profile, ignoring case. */
  predicate AgreesWithProfile(source: Source, value: string) {
    "hostprofile" in source.fields && Same(value, source.fields["hostprofile"])
  }

  lemma {:induction false} FoldWithoutUnderscores(s: string)
    ensures WithoutUnderscores(Fold(s)) == Fold(WithoutUnderscores(s))
  {
    if s != [] {
      FoldWithoutUnderscores(s[1..]);
      assert Fold(s)[1..] == Fold(s[1..]);
      var rest := WithoutUnderscores(s[1..]);
      if s[0] == '_' {
        assert WithoutUnderscores(s) == [] + rest == rest;
      } else {
        assert Fold([s[0]] + rest) == [FoldChar(s[0])] + Fold(rest);
      }
    }
  }

  lemma {:induction false} NoUnderscores(s: string)
    requires forall i :: 0 <= i < |s| ==> s[i] != '_'
    ensures WithoutUnderscores(s) == s
  {
    if s != [] {
      NoUnderscores(s[1..]);
    }
  }

  lemma {:induction false} UnderscoresShape(s: string)
    ensures |WithoutUnderscores(s)| <= |s|
    ensures s != [] && s[0] != '_' ==> WithoutUnderscores(s) != [] && WithoutUnderscores(s)[0] == s[0]
  {
    if s != [] {
      UnderscoresShape(s[1..]);
    }
  }

  lemma HostProfileIsCanonical()
    ensures "hostprofile" !in CANONICAL_FIELDS
  {
    var s := "hostprofile";
    assert |s| == 11 && s[0] == 'h';
    NotCanonical(s);
  }

  lemma NotCanonical(name: string)
    requires |name| == 11 && name[0] == 'h'
    ensures name !in CANONICAL_FIELDS
  {
  }

  lemma HostProfileLiteral(field: string)
    requires field == "hostProfile"
    ensures Fold(field) == "hostprofile" && CanonicalFieldName(field) == "hostprofile"
  {
    NoUnderscores(field);
    HostProfileIsCanonical();
    hide WithoutUnderscores;
  }

  lemma StrippedShape(name: string)
    requires WithoutUnderscores(name) == "hostprofile"
    ensures |name| >= 11 && (name[0] == 'h' || name[0] == '_')
  {
    UnderscoresShape(name);
    hide WithoutUnderscores;
    var s := "hostprofile";
    assert |s| == 11 && s[0] == 'h';
  }

  lemma NotBuiltIn(name: string)
    requires |name| >= 11 && (name[0] == 'h' || name[0] == '_')
    ensures name !in BUILT_IN_FIELDS
  {
  }

  /** A field that is hostProfile up to case and underscores reads as the source field of its own spelling. */
  lemma SpellingRead(source: Source, field: string)
    requires IsHostProfileField(field)
    ensures ReadField(source, field) == if Fold(field) in source.fields then Some(source.fields[Fold(field)]) else None
  {
    FoldWithoutUnderscores(field);
    StrippedShape(Fold(field));
    NotBuiltIn(Fold(field));
    HostProfileIsCanonical();
    assert CanonicalFieldName(field) == Fold(field);
    hide CanonicalFieldName, WithoutUnderscores, Fold, BUILT_IN_FIELDS;
  }

  lemma ProfileRead(source: Source, field: string)
    requires field == "hostProfile"
    ensures ReadField(source, field) == if "hostprofile" in source.fields then Some(source.fields["hostprofile"])
            else None
  {
    hide CanonicalFieldName, WithoutUnderscores, Fold, BUILT_IN_FIELDS;
    HostProfileLiteral(field);
    var name := Fold(field);
    assert |name| == 11 && name[0] == 'h';
    NotBuiltIn(name);
  }

  /** Where the spellings agree, such a field reads as the event's host profile, ignoring case, or as nothing. */
  lemma HostProfileRead(source: Source, field: string)
    requires SpellingsAgree(source) && IsHostProfileField(field)
    ensures Missing(ReadField(source, field)) || AgreesWithProfile(source, ReadField(source, field).value)
  {
    FoldWithoutUnderscores(field);
    FoldIdempotent(field);
    SpellingRead(source, field);
    hide ReadField, AgreesWithProfile, WithoutUnderscores, Fold, Blank;
  }

  /** If a condition matches, every profile value it requires is the event's host profile. */
  lemma {:induction false} RequiredValuesSound(source: Source, c: Condition)
    requires SpellingsAgree(source) && Matches(source, c)
    ensures forall v :: v in RequiredValues(c) ==> AgreesWithProfile(source, v)
    decreases c, |c.items| + 1
  {
    hide ReadField, SpellingsAgree, IsHostProfileField;
    if Operation(c) == "all" {
      RequiredValuesOfSound(source, c, c.items);
    } else if Operation(c) == "equals" && IsHostProfileField(c.field) {
      HostProfileRead(source, c.field);
    }
  }

  lemma {:induction false} RequiredValuesOfSound(source: Source, c: Condition, items: seq<Condition>)
    requires SpellingsAgree(source) && forall item :: item in items ==> item in c.items && Matches(source, item)
    ensures forall v :: v in RequiredValuesOf(items) ==> AgreesWithProfile(source, v)
    decreases c, |items|
  {
    hide SpellingsAgree, Matches, RequiredValues, AgreesWithProfile;
    if items != [] {
      assert items[0] in items;
      RequiredValuesSound(source, items[0]);
      RequiredValuesOfSound(source, c, items[1..]);
    }
  }

  /** Whenever a condition matches the event, what it requires is the event's host profile. */
  ghost predicate RequirementsHold(source: Source) {
    forall c, v :: Matches(source, c) && v in RequiredValues(c) ==> AgreesWithProfile(source, v)
  }

  /** The analysis of required profiles is sound for an event exactly when its spellings of hostProfile agree. */
  lemma RequiredValuesExactly(source: Source)
    ensures RequirementsHold(source) <==> SpellingsAgree(source)
  {
    if SpellingsAgree(source) {
      forall c, v | Matches(source, c) && v in RequiredValues(c)
        ensures AgreesWithProfile(source, v)
      {
        RequiredValuesSound(source, c);
      }
    }
    if RequirementsHold(source) {
      forall name | IsSpelling(source, name)
        ensures AgreesWithProfile(source, source.fields[name])
      {
        DisagreementMatches(source, name);
      }
    }
  }

  /** The condition that a spelling has the value it has matches and requires this value. */
  lemma DisagreementMatches(source: Source, name: string)
    requires IsSpelling(source, name)
    ensures var c := Condition("equals", [], name, source.fields[name], "");
            Matches(source, c) && RequiredValues(c) == [source.fields[name]]
  {
    TrimmedEquals();
    FoldWithoutUnderscores(name);
    SpellingRead(source, name);
    hide ReadField, WithoutUnderscores, Trim, Blank;
  }

  /** Ignoring a rule that requires two different profiles loses nothing: it can never match. */
  lemma AmbiguousRuleNeverMatches(source: Source, c: Condition, v: string, w: string)
    requires SpellingsAgree(source)
    requires v in RequiredValues(c) && w in RequiredValues(c) && !Same(v, w)
    ensures !Matches(source, c)
  {
    if Matches(source, c) {
      RequiredValuesSound(source, c);
    }
  }

  /** For a rule bound to one known profile the profile check adds nothing to the condition. */
  lemma KnownProfileMatches(source: Source, profiles: seq<string>, c: Condition)
    requires SpellingsAgree(source) && KnownProfile(c, profiles)
    ensures MatchesSelectionRule(source, profiles, c) <==> Matches(source, c)
  {
    hide ReadField, SpellingsAgree, RequiredValues, Matches;
    ProfileRead(source, "hostProfile");
    if Matches(source, c) {
      RequiredValuesSound(source, c);
      DistinctElements(RequiredValues(c));
      assert RequiredHostProfileName(c) in RequiredValues(c);
      SameBlank(RequiredHostProfileName(c), source.fields["hostprofile"]);
    }
  }

  /** A rule never applies to events of two differently named profiles, and never without a known profile. */
  lemma OneProfilePerRule(first: Source, second: Source, profiles: seq<string>, c: Condition)
    requires MatchesSelectionRule(first, profiles, c) && MatchesSelectionRule(second, profiles, c)
    ensures KnownProfile(c, profiles)
    ensures SameScalar(ReadField(first, "hostProfile"), ReadField(second, "hostProfile"))
  {
  }

  /** With a second spelling of hostProfile among the fields the required value need not be the profile. */
  lemma SecondSpelling(source: Source, c: Condition)
    requires source.fields == map["host_profile" := "a", "hostprofile" := "b"]
    requires c == Condition("equals", [], "host_profile", "a", "")
    ensures Matches(source, c) && RequiredValues(c) == ["a"] && !AgreesWithProfile(source, "a")
            && !RequirementsHold(source)
  {
    hide ReadField, WithoutUnderscores, Trim, RequiredValues, Matches;
    Underscored("host", "profile");
    assert "host" + "_" + "profile" == "host_profile" && "host" + "profile" == "hostprofile";
    assert Fold("host_profile") == "host_profile";
    assert !IsSpace('a') && 'a' in "a";
    assert Fold("a")[0] == 'a' && Fold("b")[0] == 'b';
    DisagreementMatches(source, "host_profile");
    var own := Condition("equals", [], "host_profile", "a", "");
    assert "a" in RequiredValues(own);
    assert "hostprofile" in source.fields;
  }

  lemma {:induction false} Underscored(left: string, right: string)
    requires forall i :: 0 <= i < |left| ==> left[i] != '_'
    requires forall i :: 0 <= i < |right| ==> right[i] != '_'
    ensures WithoutUnderscores(left + "_" + right) == left + right
  {
    var s := left + "_" + right;
    if left == [] {
      assert s[1..] == right;
      NoUnderscores(right);
    } else {
      assert s[1..] == left[1..] + "_" + right;
      Underscored(left[1..], right);
    }
  }

  lemma TrimmedEquals()
    ensures Fold(Trim("equals")) == "equals"
  {
  }
}
