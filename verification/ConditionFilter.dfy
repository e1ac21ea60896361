/** Rule conditions as the monitoring user interface reads them: evaluating one against a source, and asking
    beforehand whether it may hold for a class at all. */
module ConditionFilter {
  import opened Text

  datatype Operator =
    | Always | All | Any | Not | Equals | NotEquals | Regex | NotRegex | Exists | Empty | Unknown

  /** An expression object; Absent is anything that is no object. Items that are missing are none. */
  datatype Expression =
    | Absent
    | Node(operator: Operator, items: seq<Expression>, field: string, value: string, pattern: string)

  /** The regular expression engine: nothing for a pattern that does not compile. */
  type Engine = (string, string) -> Option<bool>

  function ItemsOf(expression: Expression): (items: seq<Expression>)
    ensures forall i :: 0 <= i < |items| ==> items[i] < expression
  {
    if expression.Node? then expression.items else []
  }

  predicate IsClassField(field: string) {
    Token(field) == "classname"
  }

  /** How a class filter compares values: trimmed and in lower case, unless its caller says by token. */
  datatype Normalizer = ByText | ByToken

  function Normal(normalizer: Normalizer, s: string): string {
    match normalizer
    case ByText => Fold(Trim(s))
    case ByToken => Token(s)
  }

  predicate Tests(engine: Engine, pattern: string, text: string) {
    engine(pattern, text) == Some(true)
  }

  predicate MatchesLeaf(engine: Engine, leaf: Expression, read: Option<string>)
    requires leaf.Node?
  {
    var value := Trim(TextOf(read));
    match leaf.operator
    case Exists => value != ""
    case Empty => value == ""
    case Equals => value != "" && Fold(value) == Fold(Trim(leaf.value))
    case NotEquals => value != "" && Fold(value) != Fold(Trim(leaf.value))
    case Regex => value != "" && Tests(engine, leaf.pattern, value)
    case NotRegex => value != "" && engine(leaf.pattern, value) == Some(false)
    case _ => false
  }

  /** The evaluator. */
  predicate Matches(engine: Engine, expression: Expression, read: string -> Option<string>)
    decreases expression
  {
    var items := ItemsOf(expression);
    if expression.Absent? then false
    else
      match expression.operator
      case Always => true
      case All => items != [] && forall i :: 0 <= i < |items| ==> Matches(engine, items[i], read)
      case Any => exists i :: 0 <= i < |items| && Matches(engine, items[i], read)
      case Not => |items| == 1 && !Matches(engine, items[0], read)
      case _ => MatchesLeaf(engine, expression, read(expression.field))
  }

  predicate LeafMayApply(engine: Engine, leaf: Expression, className: string, normalizer: Normalizer)
    requires leaf.Node?
  {
    match leaf.operator
    case Equals => Normal(normalizer, leaf.value) == Normal(normalizer, className)
    case NotEquals => Normal(normalizer, leaf.value) != Normal(normalizer, className)
    case Regex => Tests(engine, leaf.pattern, className)
    case NotRegex => engine(leaf.pattern, className) != Some(true)
    case _ => true
  }

  /** The class filter. */
  predicate MayApply(engine: Engine, expression: Expression, className: string, normalizer: Normalizer)
    decreases expression
  {
    var items := ItemsOf(expression);
    if expression.Absent? then true
    else
      match expression.operator
      case All => forall i :: 0 <= i < |items| ==> MayApply(engine, items[i], className, normalizer)
      case Any => exists i :: 0 <= i < |items| && MayApply(engine, items[i], className, normalizer)
      case Not => true
      case _ => IsClassField(expression.field) ==> LeafMayApply(engine, expression, className, normalizer)
  }

  // ---------------------------------------------------------------- when the filter is safe

  /** What a leaf on the class name needs: the patterns see no difference between the class name and the trimmed class
      name, and the normalizer none between an unequal value and the class name. */
  predicate LeafSafe(engine: Engine, leaf: Expression, className: string, normalizer: Normalizer)
    requires leaf.Node?
  {
    var trimmed := Trim(className);
    match leaf.operator
    case NotEquals =>
      trimmed == "" || Fold(Trim(leaf.value)) == Fold(trimmed)
        || Normal(normalizer, leaf.value) != Normal(normalizer, className)
    case Regex => trimmed == "" || (Tests(engine, leaf.pattern, trimmed) ==> Tests(engine, leaf.pattern, className))
    case NotRegex =>
      trimmed == "" || (engine(leaf.pattern, trimmed) == Some(false) ==> engine(leaf.pattern, className) != Some(true))
    case _ => true
  }

  /** All class name leaves outside negations are safe. */
  predicate Safe(engine: Engine, expression: Expression, className: string, normalizer: Normalizer)
    decreases expression
  {
    var items := ItemsOf(expression);
    if expression.Absent? then true
    else
      match expression.operator
      case All => forall i :: 0 <= i < |items| ==> Safe(engine, items[i], className, normalizer)
      case Any => forall i :: 0 <= i < |items| ==> Safe(engine, items[i], className, normalizer)
      case Not => true
      case _ => IsClassField(expression.field) ==> LeafSafe(engine, expression, className, normalizer)
  }

  /** Every spelling of the field className reads as the class. */
  ghost predicate ReadsClass(read: string -> Option<string>, className: string) {
    forall field :: IsClassField(field) ==> read(field) == Some(className)
  }

  lemma TokenOfSpace(c: char)
    requires IsSpace(c)
    ensures Token([c]) == ""
  {
    assert FoldChar(c) == c;
    assert Fold([c]) == [c] && [c][1..] == [];
    assert Strip([c]) == [] + Strip([c][1..]);
  }

  lemma {:induction false} TokenOfTrimStart(s: string)
    ensures Token(TrimStart(s)) == Token(s)
  {
    hide Token, IsSpace;
    if s != [] && IsSpace(s[0]) {
      assert s == [s[0]] + s[1..];
      TokenAppend([s[0]], s[1..]);
      TokenOfSpace(s[0]);
      TokenOfTrimStart(s[1..]);
    }
  }

  lemma {:induction false} TokenOfTrimEnd(s: string)
    ensures Token(TrimEnd(s)) == Token(s)
  {
    hide Token, IsSpace;
    if s != [] && IsSpace(s[|s| - 1]) {
      assert s == s[..|s| - 1] + [s[|s| - 1]];
      TokenAppend(s[..|s| - 1], [s[|s| - 1]]);
      TokenOfSpace(s[|s| - 1]);
      TokenOfTrimEnd(s[..|s| - 1]);
    }
  }

  /** Texts that are equal trimmed and in lower case have the same token. */
  lemma SameTextSameToken(left: string, right: string)
    requires Fold(Trim(left)) == Fold(Trim(right))
    ensures Token(left) == Token(right)
  {
    hide Strip, TrimStart, TrimEnd, Fold;
    TokenOfTrimStart(left);
    TokenOfTrimEnd(TrimStart(left));
    TokenOfTrimStart(right);
    TokenOfTrimEnd(TrimStart(right));
  }

  /** For a leaf on the class name this is exactly what it takes. */
  lemma LeafCoversIffSafe(engine: Engine, leaf: Expression, className: string, normalizer: Normalizer)
    requires leaf.Node?
    ensures (MatchesLeaf(engine, leaf, Some(className)) ==> LeafMayApply(engine, leaf, className, normalizer))
            <==> LeafSafe(engine, leaf, className, normalizer)
  {
    hide Token, Trim, Fold;
    if leaf.operator.Equals? && normalizer.ByToken? && Fold(Trim(leaf.value)) == Fold(Trim(className)) {
      SameTextSameToken(leaf.value, className);
    }
  }

  /** The class filter over-approximates the evaluator: a condition that holds for a source of a class may apply to
      that class. */
  lemma {:induction false} MayApplyCovers(
    engine: Engine, expression: Expression, read: string -> Option<string>, className: string, normalizer: Normalizer)
    requires ReadsClass(read, className) && Safe(engine, expression, className, normalizer)
    requires Matches(engine, expression, read)
    ensures MayApply(engine, expression, className, normalizer)
    decreases expression
  {
    hide IsClassField, MatchesLeaf, LeafMayApply, LeafSafe;
    var items := ItemsOf(expression);
    match expression.operator
    case All =>
      forall i | 0 <= i < |items|
        ensures MayApply(engine, items[i], className, normalizer)
      {
        MayApplyCovers(engine, items[i], read, className, normalizer);
      }
    case Any =>
      var i :| 0 <= i < |items| && Matches(engine, items[i], read);
      MayApplyCovers(engine, items[i], read, className, normalizer);
    case Not =>
    case Always =>
      AlwaysApplies(engine, expression, className, normalizer);
    case _ =>
      LeafCoversIffSafe(engine, expression, className, normalizer);
  }

  lemma AlwaysApplies(engine: Engine, leaf: Expression, className: string, normalizer: Normalizer)
    requires leaf.Node? && leaf.operator.Always?
    ensures LeafMayApply(engine, leaf, className, normalizer)
  {
  }

  // ---------------------------------------------------------------- two ways to be safe

  /** By text, every condition is safe for a class name without blanks around it, and for a blank one. */
  lemma {:induction false} SafeByText(engine: Engine, expression: Expression, className: string)
    requires Trim(className) == className || Trim(className) == ""
    ensures Safe(engine, expression, className, ByText)
    decreases expression
  {
    hide Trim, Fold, IsClassField;
    var items := ItemsOf(expression);
    forall i | 0 <= i < |items|
      ensures Safe(engine, items[i], className, ByText)
    {
      SafeByText(engine, items[i], className);
    }
  }

  lemma {:induction false} SafeForBlank(
    engine: Engine, expression: Expression, className: string, normalizer: Normalizer)
    requires Trim(className) == ""
    ensures Safe(engine, expression, className, normalizer)
    decreases expression
  {
    hide Trim, Fold, IsClassField, Token;
    var items := ItemsOf(expression);
    forall i | 0 <= i < |items|
      ensures Safe(engine, items[i], className, normalizer)
    {
      SafeForBlank(engine, items[i], className, normalizer);
    }
  }

  /** No leaf outside a negation asks that the class name differs from something. */
  predicate NoClassNotEquals(expression: Expression)
    decreases expression
  {
    var items := ItemsOf(expression);
    if expression.Absent? then true
    else
      match expression.operator
      case All => forall i :: 0 <= i < |items| ==> NoClassNotEquals(items[i])
      case Any => forall i :: 0 <= i < |items| ==> NoClassNotEquals(items[i])
      case NotEquals => !IsClassField(expression.field)
      case _ => true
  }

  /** By token, conditions without such a leaf are. */
  lemma {:induction false} SafeByToken(engine: Engine, expression: Expression, className: string)
    requires Trim(className) == className && NoClassNotEquals(expression)
    ensures Safe(engine, expression, className, ByToken)
    decreases expression
  {
    hide Trim, Fold, IsClassField, Token;
    var items := ItemsOf(expression);
    if expression.Node? && (expression.operator.All? || expression.operator.Any?) {
      forall i | 0 <= i < |items|
        ensures Safe(engine, items[i], className, ByToken)
      {
        SafeByToken(engine, items[i], className);
      }
    }
  }

  /** By token, the condition that the class is not some other text with the same token is missed. */
  lemma TokenFilterMisses(engine: Engine, read: string -> Option<string>, className: string, value: string)
    requires ReadsClass(read, className) && Trim(className) != ""
    requires Token(value) == Token(className) && Fold(Trim(value)) != Fold(Trim(className))
    ensures var condition := Node(NotEquals, [], "className", value, "");
            Matches(engine, condition, read) && !MayApply(engine, condition, className, ByToken)
  {
    ClassNameField();
    hide Token, Fold, Trim, IsClassField;
  }

  /** For example, class "A-B" and the condition that the class is not "AB". */
  lemma TokenExample()
    ensures Trim("A-B") != "" && Token("AB") == Token("A-B") && Fold(Trim("AB")) != Fold(Trim("A-B"))
  {
    TokensAB();
    hide Token;
    assert Trim("A-B") == "A-B" && Trim("AB") == "AB";
    hide Trim;
    assert |Fold("A-B")| == 3 && |Fold("AB")| == 2;
  }

  lemma ClassNameField()
    ensures IsClassField("className")
  {
    var upper := "className";
    assert Fold(upper) == "classname";
    StripLetters("classname");
  }

  lemma TokensAB()
    ensures Token("A-B") == Token("AB")
  {
    TokenAppend("A", "-B");
    TokenAppend("-", "B");
    TokenAppend("A", "B");
    assert "A" + "-B" == "A-B" && "-" + "B" == "-B" && "A" + "B" == "AB";
    assert Fold("-") == "-" && "-"[1..] == [];
    assert Token("-") == "";
  }

  /** A class name with blanks around it is missed by a pattern that holds for the trimmed name only. */
  lemma UntrimmedClassMissed(engine: Engine, read: string -> Option<string>, className: string, pattern: string)
    requires ReadsClass(read, className) && Trim(className) != ""
    requires Tests(engine, pattern, Trim(className)) && !Tests(engine, pattern, className)
    ensures var condition := Node(Regex, [], "className", "", pattern);
            Matches(engine, condition, read) && !MayApply(engine, condition, className, ByText)
  {
    ClassNameField();
    hide Token, Fold, Trim, IsClassField;
  }

  // ---------------------------------------------------------------- which class names the filter covers

  /** Whatever the patterns mean, a condition that holds for a source of the class may apply to the class. */
  ghost predicate CoversClass(className: string, normalizer: Normalizer) {
    forall engine: Engine, condition: Expression, read: string -> Option<string> ::
      ReadsClass(read, className) && Matches(engine, condition, read) ==>
          MayApply(engine, condition, className, normalizer)
  }

  lemma SafeCovers(className: string, normalizer: Normalizer)
    requires forall engine: Engine, condition: Expression :: Safe(engine, condition, className, normalizer)
    ensures CoversClass(className, normalizer)
  {
    forall engine: Engine, condition: Expression, read: string -> Option<string>
      | ReadsClass(read, className) && Matches(engine, condition, read)
      ensures MayApply(engine, condition, className, normalizer)
    {
      MayApplyCovers(engine, condition, read, className, normalizer);
    }
  }

  /** By text, the filter covers a class exactly when its name has no blanks around it or is blank. */
  lemma TextCoversExactly(className: string)
    ensures CoversClass(className, ByText) <==> Trim(className) == className || Trim(className) == ""
  {
    hide Matches, MayApply, Safe, Trim, IsClassField;
    if Trim(className) == className || Trim(className) == "" {
      forall engine: Engine, condition: Expression
        ensures Safe(engine, condition, className, ByText)
      {
        SafeByText(engine, condition, className);
      }
      SafeCovers(className, ByText);
    } else {
      var engine: Engine := (pattern, text) => Some(text == pattern);
      var read: string -> Option<string> := field => Some(className);
      UntrimmedClassMissed(engine, read, className, Trim(className));
    }
  }

  lemma {:induction false} TrimStartShape(s: string)
    ensures TrimStart(s) != "" ==> !IsSpace(TrimStart(s)[0])
  {
    if s != [] && IsSpace(s[0]) {
      TrimStartShape(s[1..]);
    }
  }

  lemma {:induction false} TrimEndShape(s: string)
    ensures TrimEnd(s) <= s
  {
    if s != [] && IsSpace(s[|s| - 1]) {
      TrimEndShape(s[..|s| - 1]);
    }
  }

  /** A dash after a name is no blank, and its token does not show it. */
  lemma DashedName(className: string)
    requires Trim(className) != ""
    ensures var value := Trim(className) + "-";
            Token(value) == Token(className) && Fold(Trim(value)) != Fold(Trim(className))
  {
    var name := Trim(className);
    var value := name + "-";
    hide Strip, IsSpace;
    TrimStartShape(className);
    TrimEndShape(TrimStart(className));
    assert name[0] == TrimStart(className)[0];
    assert TrimStart(value) == value by {
      assert value[0] == name[0];
    }
    assert TrimEnd(value) == value by {
      assert value[|value| - 1] == '-';
      DashIsNoSpace();
    }
    assert |Fold(value)| == |Fold(name)| + 1;
    hide TrimStart, TrimEnd, Fold;
    TokenAppend(name, "-");
    DashToken();
    TokenOfTrimStart(className);
    TokenOfTrimEnd(TrimStart(className));
  }

  lemma DashIsNoSpace()
    ensures !IsSpace('-')
  {
  }

  lemma DashToken()
    ensures Token("-") == ""
  {
    assert Fold("-") == "-" && "-"[1..] == [];
  }

  /** By token, it covers no class at all but a blank one. */
  lemma TokenCoversExactly(className: string)
    ensures CoversClass(className, ByToken) <==> Trim(className) == ""
  {
    hide Matches, MayApply, Safe, Trim, IsClassField, Token, Fold;
    if Trim(className) == "" {
      forall engine: Engine, condition: Expression
        ensures Safe(engine, condition, className, ByToken)
      {
        SafeForBlank(engine, condition, className, ByToken);
      }
      SafeCovers(className, ByToken);
    } else {
      var engine: Engine := (pattern, text) => None;
      var read: string -> Option<string> := field => Some(className);
      DashedName(className);
      TokenFilterMisses(engine, read, className, Trim(className) + "-");
    }
  }
}
