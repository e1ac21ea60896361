/** Reading a value along a path of CMDBuild references. The service has two walkers: one starts from
    the value of a source field, the other from a card reached through a domain. */
module PathResolver {
  import opened Text

  datatype Attribute = Attribute(name: string, kind: string, targetClass: string, lookupType: string)

  /** A card's non-blank values; names are case-folded. */
  type Card = map<string, string>

  datatype LookupValue = LookupValue(id: string, code: string, description: string, translation: string)

  datatype Failure = TooDeep | Cycle(key: string) | Unavailable(path: string)

  datatype Outcome<+T> = Value(value: T) | Raised(failure: Failure)

  /** What CMDBuild answers while one event is resolved. */
  datatype Cmdb = Cmdb(
    attributes: string -> Outcome<seq<Attribute>>,
    cards: (string, string) -> Outcome<Card>,
    lookupValues: string -> Outcome<seq<LookupValue>>)

  /** The lookup settings of a source field rule. */
  datatype Rule = Rule(
    resolveLookupType: string, lookupType: string, leafType: string, kind: string, valueMode: string)

  predicate IsReference(kind: string) {
    Same(kind, "reference")
  }

  predicate IsLookup(kind: string) {
    Same(kind, "lookup")
  }

  function FirstNonEmpty(values: seq<string>): string {
    if values == [] then "" else if !Blank(values[0]) then values[0] else FirstNonEmpty(values[1..])
  }

  function CardValue(card: Card, name: string): Option<string> {
    if Fold(name) in card then Some(card[Fold(name)]) else None
  }

  /** The attributes of a class by name: a later one replaces an earlier one of the same name. */
  function ByName(items: seq<Attribute>): (r: map<string, Attribute>)
    ensures forall k :: k in r ==> Fold(r[k].name) == k && r[k] in items
  {
    if items == [] then map[]
    else
      var last := items[|items| - 1];
      if Blank(last.name) then ByName(items[..|items| - 1]) else ByName(items[..|items| - 1])[Fold(last.name) := last]
  }

  function AttributeOf(db: Cmdb, className: string, name: string): (r: Outcome<Option<Attribute>>)
    ensures r.Value? && r.value.Some? ==> Same(r.value.value.name, name)
  {
    if Blank(className) then Value(None)
    else
      match db.attributes(className)
      case Raised(failure) => Raised(failure)
      case Value(items) => Value(if Fold(name) in ByName(items) then Some(ByName(items)[Fold(name)]) else None)
  }

  /** The value of the lookup attribute that comes with the card, in the wanted form. */
  function Companion(mode: string, card: Card, name: string): Option<string> {
    if mode == "id" then CardValue(card, name)
    else if mode == "description" then CardValue(card, "_" + name + "_description")
    else if mode == "translation" then CardValue(card, "_" + name + "_description_translation")
    else CardValue(card, "_" + name + "_code")
  }

  predicate LookupMatches(item: LookupValue, raw: string) {
    Same(item.id, raw) || Same(item.code, raw) || Same(item.description, raw) || Same(item.translation, raw)
  }

  function FindLookup(items: seq<LookupValue>, raw: string): Option<LookupValue> {
    if items == [] then None
    else if LookupMatches(items[0], raw) then Some(items[0])
    else FindLookup(items[1..], raw)
  }

  function LookupText(mode: string, item: LookupValue): string {
    if mode == "id" then item.id
    else if mode == "description" then FirstNonEmpty([item.description, item.code, item.id])
    else if mode == "translation" then FirstNonEmpty([item.translation, item.description, item.code, item.id])
    else FirstNonEmpty([item.code, item.description, item.id])
  }

  function ResolveLookup(
    db: Cmdb, rule: Rule, attribute: Attribute, raw: string, card: Option<Card>): Outcome<Option<string>>
  {
    var mode := Fold(FirstNonEmpty([rule.valueMode, "code"]));
    var companion := if card.Some? && !Blank(attribute.name) then Companion(mode, card.value, attribute.name) else None;
    var lookupType := FirstNonEmpty([rule.resolveLookupType, rule.lookupType, attribute.lookupType]);
    if !Missing(companion) then Value(companion)
    else if Blank(lookupType) then Value(Some(raw))
    else
      match db.lookupValues(lookupType)
      case Raised(failure) => Raised(failure)
      case Value(items) =>
        var found := FindLookup(items, raw);
        Value(Some(if found.None? then raw else LookupText(mode, found.value)))
  }

  predicate LeafIsLookup(rule: Rule, attribute: Attribute) {
    IsLookup(attribute.kind) || IsLookup(rule.leafType) || IsLookup(rule.kind)
  }

  function VisitKey(className: string, cardId: string): string {
    className + ":" + cardId
  }

  /** What a path that ends in a reference shows of the card it leads to. */
  function CardText(card: Card, cardId: string): Option<string> {
    OrElse(CardValue(card, "Code"), OrElse(CardValue(card, "Description"), Some(cardId)))
  }

  /** How a walk ended, and the cards it went to, in order, as case-folded keys. */
  datatype Walk = Walk(outcome: Outcome<Option<string>>, visited: seq<string>)

  /** The reference walker, from the path element reached. */
  function WalkReference(
    db: Cmdb, rule: Rule, maxDepth: int, className: string, value: string, card: Option<Card>,
    path: seq<string>, depth: nat, visited: seq<string>): Walk
    requires path != []
    decreases |path|
  {
    match AttributeOf(db, className, path[0])
    case Raised(failure) => Walk(Raised(failure), visited)
    case Value(None) => Walk(Value(Some(value)), visited)
    case Value(Some(attribute)) =>
      if IsReference(attribute.kind) then
        if Blank(attribute.targetClass) || Blank(value) then Walk(Value(None), visited)
        else if depth + 1 > maxDepth then Walk(Raised(TooDeep), visited)
        else
          var key := VisitKey(attribute.targetClass, value);
          if Fold(key) in visited then Walk(Raised(Cycle(key)), visited)
          else
            match db.cards(attribute.targetClass, value)
            case Raised(failure) => Walk(Raised(failure), visited + [Fold(key)])
            case Value(next) =>
              if |path| == 1 then Walk(Value(CardText(next, value)), visited + [Fold(key)])
              else
                WalkReference(db, rule, maxDepth, attribute.targetClass, TextOf(CardValue(next, path[1])), Some(next),
                              path[1..], depth + 1, visited + [Fold(key)])
      else if LeafIsLookup(rule, attribute) then Walk(ResolveLookup(db, rule, attribute, value, card), visited)
      else Walk(Value(Some(value)), visited)
  }

  /** The card walker, from the path element reached. */
  function WalkCard(
    db: Cmdb, rule: Rule, maxDepth: int, className: string, card: Card,
    path: seq<string>, depth: nat, visited: seq<string>): Walk
    requires path != []
    decreases |path|
  {
    match AttributeOf(db, className, path[0])
    case Raised(failure) => Walk(Raised(failure), visited)
    case Value(None) => Walk(Value(CardValue(card, path[0])), visited)
    case Value(Some(attribute)) =>
      var value := CardValue(card, attribute.name);
      if IsReference(attribute.kind) then
        if Blank(attribute.targetClass) || Missing(value) then Walk(Value(None), visited)
        else if depth + 1 > maxDepth then Walk(Raised(TooDeep), visited)
        else
          var key := VisitKey(attribute.targetClass, value.value);
          if Fold(key) in visited then Walk(Raised(Cycle(key)), visited)
          else
            match db.cards(attribute.targetClass, value.value)
            case Raised(failure) => Walk(Raised(failure), visited + [Fold(key)])
            case Value(next) =>
              if |path| == 1 then Walk(Value(CardText(next, value.value)), visited + [Fold(key)])
              else
                WalkCard(db, rule, maxDepth, attribute.targetClass, next, path[1..], depth + 1, visited + [Fold(key)])
      else if LeafIsLookup(rule, attribute) then
        Walk(ResolveLookup(db, rule, attribute, TextOf(value), Some(card)), visited)
      else Walk(Value(value), visited)
  }

  /** The whole reference walk, from a field value. */
  function ReferencePath(db: Cmdb, rule: Rule, maxDepth: int, className: string, value: string, path: seq<string>): Walk
    requires path != []
  {
    WalkReference(db, rule, maxDepth, className, value, None, path, 0, [])
  }

  /** The whole card walk, from a card. */
  function CardPath(db: Cmdb, rule: Rule, maxDepth: int, className: string, cardId: string, path: seq<string>): Walk {
    var key := Fold(VisitKey(className, cardId));
    if Blank(className) || Blank(cardId) then Walk(Value(None), [])
    else
      match db.cards(className, cardId)
      case Raised(failure) => Walk(Raised(failure), [key])
      case Value(card) =>
        if path == [] then Walk(Value(CardText(card, cardId)), [key])
        else WalkCard(db, rule, maxDepth, className, card, path, 0, [key])
  }

  /** Absent and empty text are one. */
  function Shown(outcome: Outcome<Option<string>>): Outcome<string> {
    match outcome
    case Raised(failure) => Raised(failure)
    case Value(value) => Value(TextOf(value))
  }

  ghost predicate Agree(left: Walk, right: Walk) {
    Shown(left.outcome) == Shown(right.outcome) && left.visited == right.visited
  }

  // ---------------------------------------------------------------- the two walkers agree

  /** Past the first reference the walkers go in step, the reference walker one level deeper. */
  lemma {:induction false} WalkersInStep(
    db: Cmdb, rule: Rule, maxDepth: int, className: string, card: Card, path: seq<string>, depth: nat,
    visited: seq<string>)
    requires path != []
    ensures Agree(
              WalkReference(db, rule, maxDepth + 1, className, TextOf(CardValue(card, path[0])), Some(card), path,
                            depth + 1, visited),
              WalkCard(db, rule, maxDepth, className, card, path, depth, visited))
    decreases |path|
  {
    assert Blank("");
    hide AttributeOf, IsReference, LeafIsLookup, ResolveLookup, VisitKey, Fold, CardText, Blank;
    var found := AttributeOf(db, className, path[0]);
    if found.Value? && found.value.Some? {
      var attribute := found.value.value;
      assert CardValue(card, attribute.name) == CardValue(card, path[0]);
      var value := TextOf(CardValue(card, path[0]));
      if IsReference(attribute.kind) && |path| > 1 {
        match db.cards(attribute.targetClass, value)
        case Raised(_) =>
        case Value(next) =>
          WalkersInStep(db, rule, maxDepth, attribute.targetClass, next, path[1..], depth + 1,
                        visited + [Fold(VisitKey(attribute.targetClass, value))]);
      }
    }
  }

  /** A path that starts with a reference to class K reads, from value v with one more level allowed, what the
      card walker reads from card v of K, and both go to the same cards in the same order. With a negative bound
      the reference walker refuses its first step, so they agree only when there is no card to go to. */
  lemma WalkersAgree(
    db: Cmdb, rule: Rule, maxDepth: int, className: string, value: string, name: string, rest: seq<string>,
    attribute: Attribute)
    requires AttributeOf(db, className, name) == Value(Some(attribute)) && IsReference(attribute.kind)
    ensures Agree(
              ReferencePath(db, rule, maxDepth + 1, className, value, [name] + rest),
              CardPath(db, rule, maxDepth, attribute.targetClass, value, rest))
            <==> maxDepth >= 0 || Blank(attribute.targetClass) || Blank(value)
  {
    hide AttributeOf, IsReference, LeafIsLookup, ResolveLookup, VisitKey, Fold, CardText, Blank;
    var path, key := [name] + rest, Fold(VisitKey(attribute.targetClass, value));
    assert path[0] == name && path[1..] == rest;
    assert [] + [key] == [key];
    if !Blank(attribute.targetClass) && !Blank(value) {
      match db.cards(attribute.targetClass, value)
      case Raised(_) =>
      case Value(card) =>
        if rest != [] {
          assert path[1] == rest[0];
          WalkersInStep(db, rule, maxDepth, attribute.targetClass, card, rest, 0, [key]);
          if maxDepth < 0 {
            WalkCardExtends(db, rule, maxDepth, attribute.targetClass, card, rest, 0, [key]);
          }
        }
    }
  }

  lemma {:induction false} WalkCardExtends(
    db: Cmdb, rule: Rule, maxDepth: int, className: string, card: Card, path: seq<string>, depth: nat,
    visited: seq<string>)
    requires path != []
    ensures |visited| <= |WalkCard(db, rule, maxDepth, className, card, path, depth, visited).visited|
    decreases |path|
  {
    hide AttributeOf, IsReference, LeafIsLookup, ResolveLookup, VisitKey, Fold, CardText, Blank, CardValue;
    var found := AttributeOf(db, className, path[0]);
    if found.Value? && found.value.Some? && |path| > 1 {
      var target, value := found.value.value.targetClass, CardValue(card, found.value.value.name);
      if value.Some? && db.cards(target, value.value).Value? {
        WalkCardExtends(db, rule, maxDepth, target, db.cards(target, value.value).value, path[1..], depth + 1,
                        visited + [Fold(VisitKey(target, value.value))]);
      }
    }
  }

  // ---------------------------------------------------------------- every card once, within the bound

  lemma {:induction false} ReferenceTrail(
    db: Cmdb, rule: Rule, maxDepth: int, className: string, value: string, card: Option<Card>,
    path: seq<string>, depth: nat, visited: seq<string>)
    requires path != [] && NoRepeats(visited) && |visited| == depth && (depth == 0 || depth <= maxDepth)
    ensures var w := WalkReference(db, rule, maxDepth, className, value, card, path, depth, visited);
            visited <= w.visited && NoRepeats(w.visited) && (w.visited == visited || |w.visited| <= maxDepth)
    decreases |path|
  {
    hide IsReference, LeafIsLookup, ResolveLookup, VisitKey, Fold, CardText, Blank, CardValue;
    var found := AttributeOf(db, className, path[0]);
    hide AttributeOf;
    if found.Value? && found.value.Some? && IsReference(found.value.value.kind) && depth + 1 <= maxDepth {
      var target := found.value.value.targetClass;
      var key := Fold(VisitKey(target, value));
      if key !in visited && |path| > 1 {
        match db.cards(target, value)
        case Raised(_) =>
        case Value(next) =>
          ReferenceTrail(db, rule, maxDepth, target, TextOf(CardValue(next, path[1])), Some(next), path[1..], depth + 1,
                         visited + [key]);
      }
    }
  }

  lemma {:induction false} CardTrail(
    db: Cmdb, rule: Rule, maxDepth: int, className: string, card: Card, path: seq<string>, depth: nat,
    visited: seq<string>)
    requires path != [] && NoRepeats(visited) && |visited| == depth + 1 && (depth == 0 || depth <= maxDepth)
    ensures var w := WalkCard(db, rule, maxDepth, className, card, path, depth, visited);
            visited <= w.visited && NoRepeats(w.visited) && (w.visited == visited || |w.visited| <= maxDepth + 1)
    decreases |path|
  {
    hide IsReference, LeafIsLookup, ResolveLookup, VisitKey, Fold, CardText, Blank, CardValue, AttributeOf;
    var found := AttributeOf(db, className, path[0]);
    if found.Value? && found.value.Some? && IsReference(found.value.value.kind) && depth + 1 <= maxDepth {
      var target, value := found.value.value.targetClass, CardValue(card, found.value.value.name);
      if !Missing(value) && |path| > 1 {
        var key := Fold(VisitKey(target, value.value));
        if key !in visited {
          match db.cards(target, value.value)
          case Raised(_) =>
          case Value(next) =>
            CardTrail(db, rule, maxDepth, target, next, path[1..], depth + 1, visited + [key]);
        }
      }
    }
  }

  /** No walk goes to a card twice. The reference walker goes to at most the bound's number of cards, the card walker
      to that many beside the one it starts from. */
  lemma EveryCardOnce(db: Cmdb, rule: Rule, maxDepth: int, className: string, value: string, path: seq<string>)
    requires path != []
    ensures var w := ReferencePath(db, rule, maxDepth, className, value, path);
            NoRepeats(w.visited) && |w.visited| <= if maxDepth < 0 then 0 else maxDepth
    ensures var w := CardPath(db, rule, maxDepth, className, value, path);
            NoRepeats(w.visited) && |w.visited| <= 1 + if maxDepth < 0 then 0 else maxDepth
  {
    hide WalkReference, WalkCard, CardText, Fold, VisitKey, Blank;
    ReferenceTrail(db, rule, maxDepth, className, value, None, path, 0, []);
    if db.cards(className, value).Value? {
      CardTrail(db, rule, maxDepth, className, db.cards(className, value).value, path, 0,
                [Fold(VisitKey(className, value))]);
    }
  }

  // ---------------------------------------------------------------- the caches

  /** Requests that share a cache key get the same answer. */
  ghost predicate KeysFaithful(db: Cmdb) {
    && (forall c, i, d, j :: Fold(VisitKey(c, i)) == Fold(VisitKey(d, j)) ==> db.cards(c, i) == db.cards(d, j))
    && (forall c, d :: Fold(c) == Fold(d) ==> db.attributes(c) == db.attributes(d))
  }

  /** Some cards of the two classes share a key; a blank id is never looked up. */
  ghost predicate KeysMeet(c: string, d: string) {
    exists i, j :: Fold(VisitKey(c, i)) == Fold(VisitKey(d, j)) && !Blank(i) && !Blank(j)
  }

  lemma KeyParts(c: string, i: string)
    ensures Fold(VisitKey(c, i)) == Fold(c) + ":" + Fold(i)
  {
  }

  lemma SharedKeyPrefix(c: string, i: string, d: string, j: string)
    requires Fold(VisitKey(c, i)) == Fold(VisitKey(d, j)) && !Same(c, d) && |c| <= |d|
    ensures Fold(c) + ":" <= Fold(d)
  {
    KeyParts(c, i);
    KeyParts(d, j);
    var key := Fold(VisitKey(c, i));
    assert key[..|c|] == Fold(c) && key[..|d|] == Fold(d) && key[|c|] == ':';
    assert key[..|c| + 1] == Fold(c) + ":";
    hide VisitKey;
    assert |c| < |d|;
    assert Fold(d)[..|c| + 1] == key[..|c| + 1];
  }

  lemma PrefixSharesKey(c: string, d: string)
    requires Fold(c) + ":" <= Fold(d)
    ensures KeysMeet(c, d)
  {
    var i, j := d[|c| + 1..] + ":1", "1";
    KeyParts(c, i);
    KeyParts(d, j);
    assert Fold(d) == Fold(c) + ":" + Fold(d)[|c| + 1..];
    assert Fold(i) == Fold(d)[|c| + 1..] + ":" + Fold(j);
    assert Fold(VisitKey(c, i)) == Fold(VisitKey(d, j));
    assert j[0] == '1' && j[0] in j && i[|i| - 1] == '1' && i[|i| - 1] in i && !IsSpace('1');
  }

  /** Two classes can share a key exactly when one, with a colon, begins the name of the other. */
  lemma KeysMeetExactly(c: string, d: string)
    requires !Same(c, d)
    ensures KeysMeet(c, d) <==> Fold(c) + ":" <= Fold(d) || Fold(d) + ":" <= Fold(c)
  {
    if KeysMeet(c, d) {
      var i, j :| Fold(VisitKey(c, i)) == Fold(VisitKey(d, j)) && !Blank(i) && !Blank(j);
      if |c| <= |d| {
        SharedKeyPrefix(c, i, d, j);
      } else {
        SharedKeyPrefix(d, j, c, i);
      }
    }
    if Fold(c) + ":" <= Fold(d) {
      PrefixSharesKey(c, d);
    }
    if Fold(d) + ":" <= Fold(c) {
      PrefixSharesKey(d, c);
      var i, j :| Fold(VisitKey(d, i)) == Fold(VisitKey(c, j)) && !Blank(i) && !Blank(j);
      assert Fold(VisitKey(c, j)) == Fold(VisitKey(d, i));
    }
  }

  lemma ColonBegins(c: string, d: string)
    ensures Fold(c) + ":" <= Fold(d) ==> ':' in d
  {
    if Fold(c) + ":" <= Fold(d) {
      assert (Fold(c) + ":")[|c|] == ':' == Fold(d)[|c|] == FoldChar(d[|c|]);
      assert d[|c|] in d;
    }
  }

  /** Keys of classes without a colon tell cards apart up to case. */
  lemma KeyOfColonFree(c: string, i: string, d: string, j: string)
    requires ':' !in c && ':' !in d
    ensures Same(VisitKey(c, i), VisitKey(d, j)) <==> Same(c, d) && Same(i, j)
  {
    KeyParts(c, i);
    KeyParts(d, j);
    hide VisitKey;
    if Same(c, d) {
      assert |Fold(c)| == |Fold(d)|;
      hide Fold;
      assert (Fold(c) + ":" + Fold(i))[|Fold(c)| + 1..] == Fold(i);
      assert (Fold(d) + ":" + Fold(j))[|Fold(d)| + 1..] == Fold(j);
    } else if Same(VisitKey(c, i), VisitKey(d, j)) {
      hide Fold;
      ColonBegins(c, d);
      ColonBegins(d, c);
      if |c| <= |d| {
        SharedKeyPrefix(c, i, d, j);
      } else {
        SharedKeyPrefix(d, j, c, i);
      }
    }
  }

  /** The walkers as the service runs them, over its card and attribute caches. */
  class Resolver {
    const db: Cmdb
    var cardCache: map<string, Card>
    var attributeCache: map<string, map<string, Attribute>>

    /** The caches hold nothing but answers of CMDBuild. */
    ghost predicate Valid()
      reads this
    {
      && KeysFaithful(db)
      && (forall c, i :: Fold(VisitKey(c, i)) in cardCache ==> db.cards(c, i) == Value(cardCache[Fold(VisitKey(c, i))]))
      && (forall c :: Fold(c) in attributeCache ==>
            db.attributes(c).Value? && attributeCache[Fold(c)] == ByName(db.attributes(c).value))
    }

    constructor (db: Cmdb)
      requires KeysFaithful(db)
      ensures Valid() && this.db == db
    {
      this.db := db;
      cardCache := map[];
      attributeCache := map[];
    }

    method GetCard(className: string, cardId: string) returns (card: Outcome<Card>)
      requires Valid()
      modifies this
      ensures Valid() && card == db.cards(className, cardId)
    {
      hide Fold, VisitKey, ByName;
      var key := Fold(VisitKey(className, cardId));
      if key in cardCache {
        return Value(cardCache[key]);
      }
      card := db.cards(className, cardId);
      if card.Value? {
        cardCache := cardCache[key := card.value];
      }
    }

    method GetAttribute(className: string, name: string) returns (attribute: Outcome<Option<Attribute>>)
      requires Valid()
      modifies this
      ensures Valid() && attribute == AttributeOf(db, className, name)
    {
      hide Fold, VisitKey, ByName, Blank;
      if Blank(className) {
        return Value(None);
      }
      var key := Fold(className);
      if key !in attributeCache {
        var items := db.attributes(className);
        if items.Raised? {
          return Raised(items.failure);
        }
        attributeCache := attributeCache[key := ByName(items.value)];
      }
      var attributes := attributeCache[key];
      attribute := Value(if Fold(name) in attributes then Some(attributes[Fold(name)]) else None);
    }

    /** The loop of ResolvePathAsync. */
    method ResolvePath(rule: Rule, maxDepth: int, className: string, sourceValue: string, path: seq<string>)
      returns (outcome: Outcome<Option<string>>)
      requires Valid() && path != []
      modifies this
      ensures Valid() && outcome == ReferencePath(db, rule, maxDepth, className, sourceValue, path).outcome
    {
      hide AttributeOf, IsReference, LeafIsLookup, ResolveLookup, VisitKey, Fold, CardText, Blank, CardValue, ByName;
      var currentClass, currentValue, currentCard := className, sourceValue, None;
      var depth: nat := 0;
      var visited: set<string> := {};
      ghost var trail: seq<string> := [];
      for i := 0 to |path|
        invariant Valid()
        invariant forall k :: k in visited <==> k in trail
        invariant i < |path| ==>
            ReferencePath(db, rule, maxDepth, className, sourceValue, path) ==
            WalkReference(db, rule, maxDepth, currentClass, currentValue, currentCard, path[i..], depth, trail)
        invariant i < |path|
      {
        var found := GetAttribute(currentClass, path[i]);
        match found {
          case Raised(failure) => return Raised(failure);
          case Value(None) => return Value(Some(currentValue));
          case Value(Some(attribute)) =>
            if !IsReference(attribute.kind) {
              if LeafIsLookup(rule, attribute) {
                return ResolveLookup(db, rule, attribute, currentValue, currentCard);
              }
              return Value(Some(currentValue));
            }
            if Blank(attribute.targetClass) || Blank(currentValue) {
              return Value(None);
            }
            depth := depth + 1;
            if depth > maxDepth {
              return Raised(TooDeep);
            }
            var visitKey := VisitKey(attribute.targetClass, currentValue);
            if Fold(visitKey) in visited {
              return Raised(Cycle(visitKey));
            }
            visited := visited + {Fold(visitKey)};
            trail := trail + [Fold(visitKey)];
            currentClass := attribute.targetClass;
            var card := GetCard(currentClass, currentValue);
            if card.Raised? {
              return Raised(card.failure);
            }
            currentCard := Some(card.value);
            if i == |path| - 1 {
              return Value(CardText(card.value, currentValue));
            }
            currentValue := TextOf(CardValue(card.value, path[i + 1]));
            assert path[i..][1..] == path[i + 1..] && path[i..][1] == path[i + 1];
        }
      }
    }

    /** The loop of ResolveCardPathAsync. */
    method ResolveCardPath(rule: Rule, maxDepth: int, className: string, cardId: string, path: seq<string>)
      returns (outcome: Outcome<Option<string>>)
      requires Valid()
      modifies this
      ensures Valid() && outcome == CardPath(db, rule, maxDepth, className, cardId, path).outcome
    {
      hide AttributeOf, IsReference, LeafIsLookup, ResolveLookup, VisitKey, Fold, CardText, Blank, CardValue, ByName;
      if Blank(className) || Blank(cardId) {
        return Value(None);
      }
      var card := GetCard(className, cardId);
      if card.Raised? {
        return Raised(card.failure);
      }
      if path == [] {
        return Value(CardText(card.value, cardId));
      }
      var currentClass, currentCardId, currentCard := className, cardId, card.value;
      var depth: nat := 0;
      ghost var trail: seq<string> := [Fold(VisitKey(className, cardId))];
      var visited: set<string> := {Fold(VisitKey(className, cardId))};
      for i := 0 to |path|
        invariant Valid()
        invariant forall k :: k in visited <==> k in trail
        invariant i < |path|
        invariant CardPath(db, rule, maxDepth, className, cardId, path) ==
                  WalkCard(db, rule, maxDepth, currentClass, currentCard, path[i..], depth, trail)
      {
        var found := GetAttribute(currentClass, path[i]);
        match found {
          case Raised(failure) => return Raised(failure);
          case Value(None) => return Value(CardValue(currentCard, path[i]));
          case Value(Some(attribute)) =>
            var attributeValue := CardValue(currentCard, attribute.name);
            if !IsReference(attribute.kind) {
              if LeafIsLookup(rule, attribute) {
                return ResolveLookup(db, rule, attribute, TextOf(attributeValue), Some(currentCard));
              }
              return Value(attributeValue);
            }
            if Blank(attribute.targetClass) || Missing(attributeValue) {
              return Value(None);
            }
            depth := depth + 1;
            if depth > maxDepth {
              return Raised(TooDeep);
            }
            currentClass := attribute.targetClass;
            currentCardId := attributeValue.value;
            var visitKey := VisitKey(currentClass, currentCardId);
            if Fold(visitKey) in visited {
              return Raised(Cycle(visitKey));
            }
            visited := visited + {Fold(visitKey)};
            trail := trail + [Fold(visitKey)];
            card := GetCard(currentClass, currentCardId);
            if card.Raised? {
              return Raised(card.failure);
            }
            currentCard := card.value;
            if i == |path| - 1 {
              return Value(CardText(currentCard, currentCardId));
            }
            assert path[i..][1..] == path[i + 1..];
        }
      }
    }
  }
}
