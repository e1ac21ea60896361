/** Text as the services compare it: ordinal, ignoring ASCII case, with "blank" for
    missing, empty and white-space-only values. */
module Text {

  datatype Option<+T> = None | Some(value: T)

  /** The C# operator `left ?? right`. */
  function OrElse<T>(left: Option<T>, right: Option<T>): Option<T> {
    if left.Some? then left else right
  }

  function FoldChar(c: char): char {
    if 'A' <= c <= 'Z' then c - 'A' + 'a' else c
  }

  /** The representative of a text under case-insensitive comparison. */
  function Fold(s: string): string {
    seq(|s|, i requires 0 <= i < |s| => FoldChar(s[i]))
  }

  predicate Same(left: string, right: string) {
    Fold(left) == Fold(right)
  }

  lemma FoldIdempotent(s: string)
    ensures Fold(Fold(s)) == Fold(s)
  {
  }

  predicate IsSpace(c: char) {
    c == ' ' || '\t' <= c <= '\r'
  }

  predicate Blank(s: string) {
    forall c :: c in s ==> IsSpace(c)
  }

  lemma SameBlank(left: string, right: string)
    requires Same(left, right)
    ensures Blank(left) <==> Blank(right)
  {
    assert |left| == |Fold(left)| == |right|;
    forall i | 0 <= i < |left|
      ensures IsSpace(left[i]) <==> IsSpace(right[i])
    {
      assert FoldChar(left[i]) == Fold(left)[i] == FoldChar(right[i]);
    }
  }

  predicate Missing(s: Option<string>) {
    s.None? || Blank(s.value)
  }

  /** `left ?? ""` compared ignoring case. */
  predicate SameScalar(left: Option<string>, right: Option<string>) {
    Same(TextOf(left), TextOf(right))
  }

  function TextOf(s: Option<string>): string {
    if s.Some? then s.value else ""
  }

  predicate Holds(xs: seq<string>, x: string) {
    exists y :: y in xs && Same(y, x)
  }

  lemma HoldsAppend(xs: seq<string>, ys: seq<string>)
    ensures forall x :: Holds(xs + ys, x) <==> Holds(xs, x) || Holds(ys, x)
  {
    forall x
      ensures Holds(xs + ys, x) <==> Holds(xs, x) || Holds(ys, x)
    {
      assert forall y :: y in xs + ys <==> y in xs || y in ys;
    }
  }

  ghost predicate NoRepeats(keys: seq<string>) {
    forall i, j :: 0 <= i < j < |keys| ==> keys[i] != keys[j]
  }

  /** The elements of a list up to case. */
  ghost function FoldSet(xs: seq<string>): set<string> {
    if xs == [] then {} else {Fold(xs[0])} + FoldSet(xs[1..])
  }

  lemma {:induction false} FoldSetHolds(xs: seq<string>, x: string)
    ensures Fold(x) in FoldSet(xs) <==> Holds(xs, x)
  {
    if xs != [] {
      assert xs == [xs[0]] + xs[1..];
      HoldsAppend([xs[0]], xs[1..]);
      assert xs[0] in [xs[0]];
      FoldSetHolds(xs[1..], x);
    }
  }

  lemma {:induction false} FoldSetAppend(xs: seq<string>, ys: seq<string>)
    ensures FoldSet(xs + ys) == FoldSet(xs) + FoldSet(ys)
  {
    if xs == [] {
      assert xs + ys == ys;
    } else {
      assert (xs + ys)[1..] == xs[1..] + ys;
      FoldSetAppend(xs[1..], ys);
    }
  }

  /** LINQ Distinct with a case-insensitive comparer: the first spelling of each element stays. */
  function Distinct(xs: seq<string>): seq<string> {
    if xs == [] then []
    else
      var r := Distinct(xs[..|xs| - 1]);
      if Holds(r, xs[|xs| - 1]) then r else r + [xs[|xs| - 1]]
  }

  lemma {:induction false} DistinctElements(xs: seq<string>)
    ensures forall x :: x in Distinct(xs) ==> x in xs
    ensures forall x :: Holds(Distinct(xs), x) <==> Holds(xs, x)
    ensures forall i, j :: 0 <= i < j < |Distinct(xs)| ==> !Same(Distinct(xs)[i], Distinct(xs)[j])
  {
    if xs != [] {
      var front, last := xs[..|xs| - 1], xs[|xs| - 1];
      assert xs == front + [last];
      DistinctElements(front);
      HoldsAppend(front, [last]);
      HoldsAppend(Distinct(front), [last]);
      assert last in [last];
    }
  }

  function NonBlank(xs: seq<Option<string>>): (r: seq<string>)
    ensures forall x :: x in r <==> Some(x) in xs && !Blank(x)
  {
    if xs == [] then []
    else
      assert xs == [xs[0]] + xs[1..];
      (if Missing(xs[0]) then [] else [xs[0].value]) + NonBlank(xs[1..])
  }

  function TrimStart(s: string): string {
    if s != [] && IsSpace(s[0]) then TrimStart(s[1..]) else s
  }

  function TrimEnd(s: string): string {
    if s != [] && IsSpace(s[|s| - 1]) then TrimEnd(s[..|s| - 1]) else s
  }

  function Trim(s: string): string {
    TrimEnd(TrimStart(s))
  }

  function Strip(s: string): string {
    if s == [] then []
    else (if 'a' <= s[0] <= 'z' || '0' <= s[0] <= '9' then [s[0]] else []) + Strip(s[1..])
  }

  /** Lower case letters and digits only. */
  function Token(s: string): string {
    Strip(Fold(s))
  }

  lemma {:induction false} StripAppend(left: string, right: string)
    ensures Strip(left + right) == Strip(left) + Strip(right)
  {
    if left == [] {
      assert left + right == right;
    } else {
      assert (left + right)[1..] == left[1..] + right;
      StripAppend(left[1..], right);
      var head := if 'a' <= left[0] <= 'z' || '0' <= left[0] <= '9' then [left[0]] else [];
      assert head + (Strip(left[1..]) + Strip(right)) == (head + Strip(left[1..])) + Strip(right);
    }
  }

  lemma TokenAppend(left: string, right: string)
    ensures Token(left + right) == Token(left) + Token(right)
  {
    hide FoldChar, Strip;
    assert Fold(left + right) == Fold(left) + Fold(right);
    StripAppend(Fold(left), Fold(right));
  }

  lemma {:induction false} StripLetters(s: string)
    requires forall i :: 0 <= i < |s| ==> 'a' <= s[i] <= 'z'
    ensures Strip(s) == s
  {
    if s != [] {
      StripLetters(s[1..]);
    }
  }
}
