/**
 Schema versions (internal/persistence/schema.go): dotted numbers compared
 component by component, with missing and malformed components read as zero.
 */
module SchemaVersions {
  import opened Wrappers
  import opened GoStrings

  function NormalizeSchemaVersion(v: string): string {
    TrimPrefix(TrimSpace(v), 'v')
  }

  /** The dotted parts `CompareSchemaVersions` walks over. */
  function Parts(v: string): (parts: seq<string>)
    ensures |parts| >= 1
  {
    Split(NormalizeSchemaVersion(v), '.')
  }

  function ComponentAt(parts: seq<string>, i: nat): int {
    if i >= |parts| then 0 else Atoi(parts[i]).GetOr(0)
  }

  /** A version read as an infinite, eventually zero, sequence of numbers. */
  function Digit(v: string, i: nat): int {
    ComponentAt(Parts(v), i)
  }

  function Width(a: string, b: string): nat {
    if |Parts(b)| > |Parts(a)| then |Parts(b)| else |Parts(a)|
  }

  function CompareFrom(a: string, b: string, i: nat): int
    decreases Width(a, b) - i
  {
    if i >= Width(a, b) then 0
    else if Digit(a, i) < Digit(b, i) then -1
    else if Digit(a, i) > Digit(b, i) then 1
    else CompareFrom(a, b, i + 1)
  }

  /** What `CompareSchemaVersions` returns. */
  function Compare(a: string, b: string): int {
    CompareFrom(a, b, 0)
  }

  /** The index loop of the source, proved against `Compare`. */
  method CompareSchemaVersions(a: string, b: string) returns (r: int)
    ensures r == Compare(a, b)
  {
    var as_ := Parts(a);
    var bs := Parts(b);
    var n := |as_|;
    if |bs| > n {
      n := |bs|;
    }
    var i := 0;
    while i < n
      invariant 0 <= i <= n == Width(a, b)
      invariant Compare(a, b) == CompareFrom(a, b, i)
    {
      var ai := ComponentAt(as_, i);
      var bi := ComponentAt(bs, i);
      if ai < bi {
        return -1;
      }
      if ai > bi {
        return 1;
      }
      i := i + 1;
    }
    return 0;
  }

  predicate SchemaSatisfies(current: string, required: string) {
    TrimSpace(current) != "" && Compare(current, required) >= 0
  }

  // ----- the order, stated without the loop -----

  ghost predicate SameBelow(a: string, b: string, k: nat) {
    forall i: nat :: i < k ==> Digit(a, i) == Digit(b, i)
  }

  /** `a` is below `b` in the lexicographic order of zero-padded sequences. */
  ghost predicate Below(a: string, b: string) {
    exists k: nat :: SameBelow(a, b, k) && Digit(a, k) < Digit(b, k)
  }

  ghost predicate Equivalent(a: string, b: string) {
    forall i: nat :: Digit(a, i) == Digit(b, i)
  }

  /**
   How a version is read: surrounded by spaces or not, led by a v or not, its dotted parts are
   its numbers in order, with zero for a part that is no number and for parts that are missing.
   */
  lemma DigitExactly(before: string, parts: seq<string>, after: string, i: nat)
    requires AllSpaces(before) && AllSpaces(after) && parts != [] && forall p :: p in parts ==> '.' !in p
    requires var text := Join(parts, "."); Tight(text) && (text != "" ==> text[0] != 'v')
    ensures var text := Join(parts, ".");
            var number := if i < |parts| && Atoi(parts[i]).Some? then Atoi(parts[i]).value else 0;
            && Digit(before + text + after, i) == number
            && Digit(before + ("v" + text) + after, i) == number
  {
    hide NormalizeSchemaVersion, Atoi, Split, AllSpaces, Tight, Join;
    var text := Join(parts, ".");
    NormalizedExactly(before, text, after);
    SplitJoin(parts, '.');
  }

  lemma NormalizedExactly(before: string, text: string, after: string)
    requires AllSpaces(before) && AllSpaces(after) && Tight(text) && (text != "" ==> text[0] != 'v')
    ensures NormalizeSchemaVersion(before + text + after) == text
    ensures NormalizeSchemaVersion(before + ("v" + text) + after) == text
  {
    hide TrimSpace, IsSpace, AllSpaces;
    TrimUndone(before, text, after);
    LedIsTight(text);
    TrimUndone(before, "v" + text, after);
    assert ("v" + text)[1..] == text;
  }

  lemma LedIsTight(text: string)
    requires Tight(text)
    ensures Tight("v" + text)
  {
    var led := "v" + text;
    assert led[|led| - 1] == if text == "" then 'v' else text[|text| - 1];
  }

  /** A schema satisfies a requirement exactly when it is not blank and not below it. */
  lemma SatisfiesExactly(current: string, required: string)
    ensures SchemaSatisfies(current, required) <==> !AllSpaces(current) && !Below(current, required)
  {
    hide Below;
    CompareIsLexicographic(current, required);
    var before, after := TrimExactly(current);
    if AllSpaces(current) {
      assert current == current + "" + "";
      TrimUndone(current, "", "");
    }
    hide TrimSpace, IsSpace;
    assert TrimSpace(current) == "" ==> current == before + after;
  }

  lemma PastTheEnd(a: string, b: string, k: nat)
    requires k >= Width(a, b)
    ensures Digit(a, k) == 0 == Digit(b, k)
  {
  }

  lemma {:induction false} CompareFromIsLexicographic(a: string, b: string, i: nat)
    requires SameBelow(a, b, i)
    ensures CompareFrom(a, b, i) in {-1, 0, 1}
    ensures CompareFrom(a, b, i) == -1 ==> Below(a, b)
    ensures CompareFrom(a, b, i) == 1 ==> Below(b, a)
    ensures CompareFrom(a, b, i) == 0 ==> Equivalent(a, b)
    decreases Width(a, b) - i
  {
    hide Digit;
    if i >= Width(a, b) {
      forall k: nat ensures Digit(a, k) == Digit(b, k) {
        if k >= i { PastTheEnd(a, b, k); }
      }
    } else if Digit(a, i) < Digit(b, i) {
    } else if Digit(a, i) > Digit(b, i) {
      assert SameBelow(b, a, i);
    } else {
      CompareFromIsLexicographic(a, b, i + 1);
    }
  }

  lemma BelowExcludes(a: string, b: string)
    requires Below(a, b)
    ensures !Below(b, a) && !Equivalent(a, b)
  {
    hide Digit;
    var k: nat :| SameBelow(a, b, k) && Digit(a, k) < Digit(b, k);
  }

  /** Every outcome of the comparison means exactly what the lexicographic order says, on all strings. */
  lemma CompareIsLexicographic(a: string, b: string)
    ensures Compare(a, b) in {-1, 0, 1}
    ensures Compare(a, b) == -1 <==> Below(a, b)
    ensures Compare(a, b) == 1 <==> Below(b, a)
    ensures Compare(a, b) == 0 <==> Equivalent(a, b)
  {
    hide Digit, CompareFrom, Below;
    CompareFromIsLexicographic(a, b, 0);
    if Below(a, b) { BelowExcludes(a, b); }
    if Below(b, a) { BelowExcludes(b, a); }
  }

  lemma BelowTransitive(a: string, b: string, c: string)
    requires Below(a, b) && Below(b, c)
    ensures Below(a, c)
  {
    hide Digit;
    var j: nat :| SameBelow(a, b, j) && Digit(a, j) < Digit(b, j);
    var k: nat :| SameBelow(b, c, k) && Digit(b, k) < Digit(c, k);
    var m := if j < k then j else k;
    assert SameBelow(a, c, m) && Digit(a, m) < Digit(c, m);
  }

  lemma BelowRespectsEquivalence(a: string, b: string, c: string)
    ensures Below(a, b) && Equivalent(b, c) ==> Below(a, c)
    ensures Equivalent(a, b) && Below(b, c) ==> Below(a, c)
  {
    hide Digit;
    if Below(a, b) && Equivalent(b, c) {
      var k: nat :| SameBelow(a, b, k) && Digit(a, k) < Digit(b, k);
      assert SameBelow(a, c, k) && Digit(a, k) < Digit(c, k);
    }
    if Equivalent(a, b) && Below(b, c) {
      var k: nat :| SameBelow(b, c, k) && Digit(b, k) < Digit(c, k);
      assert SameBelow(a, c, k) && Digit(a, k) < Digit(c, k);
    }
  }

  lemma SameAsItself(a: string)
    ensures Equivalent(a, a)
  {
  }

  /**
   The comparison is a total preorder on all strings: reflexive, antisymmetric in
   sign, and transitive even between versions with different numbers of parts.
   */
  lemma CompareIsTotalPreorder(a: string, b: string, c: string)
    ensures Compare(a, a) == 0
    ensures Compare(a, b) == -Compare(b, a)
    ensures Compare(a, b) <= 0 && Compare(b, c) <= 0 ==> Compare(a, c) <= 0
    ensures Compare(a, b) < 0 && Compare(b, c) <= 0 ==> Compare(a, c) < 0
    ensures Compare(a, b) <= 0 && Compare(b, c) < 0 ==> Compare(a, c) < 0
  {
    hide Compare, Below, Digit;
    SameAsItself(a);
    CompareIsLexicographic(a, a);
    CompareIsLexicographic(a, b);
    CompareIsLexicographic(b, a);
    CompareIsLexicographic(b, c);
    CompareIsLexicographic(a, c);
    BelowRespectsEquivalence(a, b, c);
    if Below(a, b) && Below(b, c) { BelowTransitive(a, b, c); }
  }

  /** A satisfied requirement survives raising the schema and lowering the requirement. */
  lemma SatisfactionIsMonotone(current: string, newer: string, required: string, weaker: string)
    requires SchemaSatisfies(current, required)
    requires TrimSpace(newer) != "" && Compare(newer, current) >= 0
    requires Compare(weaker, required) <= 0
    ensures SchemaSatisfies(newer, weaker)
  {
    hide Compare, TrimSpace;
    CompareIsTotalPreorder(newer, current, required);
    CompareIsTotalPreorder(current, newer, required);
    CompareIsTotalPreorder(required, current, newer);
    CompareIsTotalPreorder(weaker, required, newer);
    CompareIsTotalPreorder(weaker, newer, required);
  }

  // ----- "an empty string is the lowest version" -----

  /** The most significant non-zero component is negative, e.g. "-1" or "0.-3". */
  ghost predicate LeadsNegative(v: string) {
    exists k: nat :: (forall i: nat :: i < k ==> Digit(v, i) == 0) && Digit(v, k) < 0
  }

  lemma EmptyIsZero(i: nat)
    ensures Digit("", i) == 0
  {
  }

  /**
   The doc comment of the source calls the empty string the lowest possible
   version.  It is below or equal to exactly those versions whose first non-zero
   component is not negative.
   */
  lemma EmptyIsLowestExactly(v: string)
    ensures Compare("", v) <= 0 <==> !LeadsNegative(v)
  {
    forall i: nat ensures Digit("", i) == 0 { EmptyIsZero(i); }
    CompareIsLexicographic("", v);
    if LeadsNegative(v) {
      var k: nat :| (forall i: nat :: i < k ==> Digit(v, i) == 0) && Digit(v, k) < 0;
      assert SameBelow(v, "", k) && Digit(v, k) < Digit("", k);
    }
    if Below(v, "") {
      var k: nat :| SameBelow(v, "", k) && Digit(v, k) < Digit("", k);
      assert forall i: nat :: i < k ==> Digit(v, i) == 0;
    }
  }

  /** A version below the empty string. */
  lemma EmptyIsNotAlwaysLowest()
    ensures Compare("", "-1") == 1
  {
    EmptyIsZero(0);
    assert Parts("-1") == ["-1"] by {
      assert TrimSpace("-1") == "-1";
      SplitJoin(["-1"], '.');
    }
    assert Atoi("-1") == Some(-1) by {
      assert "-1"[1..] == "1";
      assert DigitsValue("1") == 10 * DigitsValue("1"[..0]) + 1;
    }
    CompareIsLexicographic("", "-1");
    assert SameBelow("-1", "", 0);
  }
}
