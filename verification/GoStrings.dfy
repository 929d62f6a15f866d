/**
 The few functions of Go's `strings` and `strconv` packages that the operator's
 version handling relies on.  Strings are sequences of Unicode scalars.
 */
module GoStrings {
  import opened Wrappers

  /** `strings.Join`. */
  function Join(parts: seq<string>, sep: string): string {
    if |parts| == 0 then ""
    else if |parts| == 1 then parts[0]
    else parts[0] + sep + Join(parts[1..], sep)
  }

  /** `strings.Split` for a one-character separator: never empty, and inverted by `Join`. */
  function Split(s: string, sep: char): (parts: seq<string>)
    ensures |parts| >= 1
    ensures forall p :: p in parts ==> sep !in p
    ensures Join(parts, [sep]) == s
  {
    if s == "" then [""]
    else if s[0] == sep then
      var rest := Split(s[1..], sep);
      assert Join([""] + rest, [sep]) == s by { assert ([""] + rest)[1..] == rest; }
      [""] + rest
    else
      var rest := Split(s[1..], sep);
      var parts := [[s[0]] + rest[0]] + rest[1..];
      assert Join(parts, [sep]) == s by { assert parts[1..] == rest[1..]; }
      parts
  }

  /** Splitting is the only way to undo a join of separator-free parts. */
  lemma {:induction false} SplitJoin(parts: seq<string>, sep: char)
    requires |parts| >= 1
    requires forall p :: p in parts ==> sep !in p
    ensures Split(Join(parts, [sep]), sep) == parts
    decreases |Join(parts, [sep])|
  {
    var s := Join(parts, [sep]);
    if parts[0] == "" {
      if |parts| > 1 {
        assert s == [sep] + Join(parts[1..], [sep]);
        assert s[1..] == Join(parts[1..], [sep]);
        SplitJoin(parts[1..], sep);
      }
    } else {
      var c := parts[0][0];
      var shorter := [parts[0][1..]] + parts[1..];
      assert shorter[1..] == parts[1..];
      assert s == [c] + Join(shorter, [sep]);
      assert s[1..] == Join(shorter, [sep]);
      assert c in parts[0];
      forall p | p in shorter ensures sep !in p {
        if p == shorter[0] { assert forall x :: x in p ==> x in parts[0]; }
      }
      SplitJoin(shorter, sep);
      assert [c] + parts[0][1..] == parts[0];
    }
  }

  /** `unicode.IsSpace`. */
  predicate IsSpace(c: char) {
    || '\t' <= c <= '\r' || c == ' ' || c == '\U{85}' || c == '\U{A0}' || c == '\U{1680}'
    || '\U{2000}' <= c <= '\U{200A}' || c == '\U{2028}' || c == '\U{2029}' || c == '\U{202F}'
    || c == '\U{205F}' || c == '\U{3000}'
  }

  /** Among ASCII characters: tab, line feed, vertical tab, form feed, carriage return and blank. */
  lemma AsciiSpaces(c: char)
    requires c < '\U{80}'
    ensures IsSpace(c) <==> c as int in {9, 10, 11, 12, 13, 32}
  {
  }

  function TrimLeft(s: string): string {
    if s != "" && IsSpace(s[0]) then TrimLeft(s[1..]) else s
  }

  function TrimRight(s: string): string {
    if s != "" && IsSpace(s[|s| - 1]) then TrimRight(s[..|s| - 1]) else s
  }

  /** `strings.TrimSpace`. */
  function TrimSpace(s: string): string {
    TrimRight(TrimLeft(s))
  }

  predicate AllSpaces(s: string) {
    forall i :: 0 <= i < |s| ==> IsSpace(s[i])
  }

  lemma {:induction false} TrimLeftExactly(s: string) returns (before: string)
    ensures s == before + TrimLeft(s) && AllSpaces(before)
    ensures TrimLeft(s) != "" ==> !IsSpace(TrimLeft(s)[0])
  {
    if s != "" && IsSpace(s[0]) {
      var rest := TrimLeftExactly(s[1..]);
      before := [s[0]] + rest;
    } else {
      before := "";
    }
  }

  lemma {:induction false} TrimRightExactly(s: string) returns (after: string)
    ensures s == TrimRight(s) + after && AllSpaces(after)
    ensures TrimRight(s) != "" ==> !IsSpace(TrimRight(s)[|TrimRight(s)| - 1])
  {
    if s != "" && IsSpace(s[|s| - 1]) {
      var rest := TrimRightExactly(s[..|s| - 1]);
      after := rest + [s[|s| - 1]];
    } else {
      after := "";
    }
  }

  /** Trimming takes off spaces only, at both ends, and all of them there. */
  lemma TrimExactly(s: string) returns (before: string, after: string)
    ensures s == before + TrimSpace(s) + after && AllSpaces(before) && AllSpaces(after)
    ensures TrimSpace(s) != "" ==> !IsSpace(TrimSpace(s)[0]) && !IsSpace(TrimSpace(s)[|TrimSpace(s)| - 1])
  {
    before := TrimLeftExactly(s);
    after := TrimRightExactly(TrimLeft(s));
  }

  /** Neither end of the text is a space. */
  predicate Tight(s: string) {
    s != "" ==> !IsSpace(s[0]) && !IsSpace(s[|s| - 1])
  }

  /** Spaces put around a text that has none at its ends are exactly what trimming takes off. */
  lemma {:induction false} TrimUndone(before: string, s: string, after: string)
    requires AllSpaces(before) && AllSpaces(after) && Tight(s)
    ensures TrimSpace(before + s + after) == s
    decreases |before| + |after|
  {
    var text := before + s + after;
    if before != "" {
      assert text[1..] == before[1..] + s + after;
      TrimUndone(before[1..], s, after);
    } else if s == "" {
      assert text == after;
      if after != "" {
        assert text[1..] == "" + "" + after[1..];
        TrimUndone("", "", after[1..]);
      }
    } else {
      assert text == s + after && text[0] == s[0];
      if after != "" {
        var last := |after| - 1;
        assert text[..|text| - 1] == "" + s + after[..last];
        assert text[|text| - 1] == after[last];
        TrimUndone("", s, after[..last]);
        assert ("" + s + after[..last])[0] == s[0];
      } else {
        assert text == s;
      }
    }
  }

  /** `strings.TrimPrefix` for a one-character prefix. */
  function TrimPrefix(s: string, prefix: char): string {
    if s != "" && s[0] == prefix then s[1..] else s
  }

  predicate AllDigits(s: string) {
    forall i :: 0 <= i < |s| ==> '0' <= s[i] <= '9'
  }

  /** The value of a string of decimal digits. */
  function DigitsValue(s: string): nat
    requires AllDigits(s)
  {
    if s == "" then 0
    else 10 * DigitsValue(s[..|s| - 1]) + (s[|s| - 1] as int - '0' as int)
  }

  const MIN_INT := -0x8000_0000_0000_0000
  const MAX_INT := 0x7fff_ffff_ffff_ffff

  /** `strconv.Atoi`: an optional sign, at least one digit, and a result that fits 64 bits. */
  function Atoi(s: string): Option<int> {
    var signed := s != "" && (s[0] == '-' || s[0] == '+');
    var digits := if signed then s[1..] else s;
    if digits == "" || !AllDigits(digits) then None
    else
      var n: int := DigitsValue(digits);
      var v: int := if signed && s[0] == '-' then -n else n;
      if MIN_INT <= v <= MAX_INT then Some(v) else None
  }

  /** The digits, with or without a sign, spell the number. */
  predicate Spells(s: string, digits: string, n: int) {
    && digits != "" && AllDigits(digits)
    && ((s in {digits, "+" + digits} && n == DigitsValue(digits)) || (s == "-" + digits && n == 0 - DigitsValue(digits)))
  }

  /** `Atoi` reads exactly the decimal spellings, with or without a sign, of numbers that fit 64 bits. */
  lemma AtoiExactly(s: string, n: int)
    ensures Atoi(s) == Some(n) <==>
              -0x8000_0000_0000_0000 <= n < 0x8000_0000_0000_0000 && exists digits :: Spells(s, digits, n)
  {
    hide DigitsValue;
    if Atoi(s) == Some(n) {
      var digits := if s[0] == '-' || s[0] == '+' then s[1..] else s;
      assert s == digits || s == [s[0]] + digits;
      assert Spells(s, digits, n);
    }
    if digits :| Spells(s, digits, n) {
      assert digits[0] != '-' && digits[0] != '+';
      assert ("+" + digits)[1..] == digits && ("-" + digits)[1..] == digits;
    }
  }
}
