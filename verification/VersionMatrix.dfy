/** The generated support matrix (internal/temporal/versions_gen.go). */
module VersionMatrix {
  import opened Wrappers
  import opened GoStrings
  import opened Versions

  const V127 := VersionInfo("1.27", ["1.27.0"], "v1.15", "v1.9", "v1.11", "v7", ["1.26"])
  const V128 := VersionInfo("1.28", ["1.28.3", "1.28.4"], "v1.17", "v1.9", "v1.12", "v7", ["1.27"])
  const V129 := VersionInfo("1.29", ["1.29.6", "1.29.7"], "v1.18", "v1.9", "v1.13", "v7", ["1.28"])
  const V130 := VersionInfo("1.30", ["1.30.4", "1.30.5", "1.30.6", "1.30.8"], "v1.18", "v1.13", "v1.13", "v7", ["1.29"])
  const V131 := VersionInfo("1.31", ["1.31.0", "1.31.1", "1.31.2", "1.31.4"], "v1.19", "v1.14", "v1.13", "v7", ["1.30"])
  const V132 := VersionInfo("1.32", ["1.32.0", "1.32.1"], "v1.19", "v1.14", "v1.13", "v7", ["1.31"])

  const SUPPORTED_VERSIONS: Matrix := [V127, V128, V129, V130, V131, V132]

  predicate Digit(c: char) { '0' <= c <= '9' }

  function Value(c: char): int
    requires Digit(c)
  {
    c as int - '0' as int
  }

  lemma OneDigit(c: char)
    requires Digit(c)
    ensures Atoi([c]) == Some(Value(c))
  {
    assert [c][..0] == "";
    assert DigitsValue([c][..0]) == 0;
  }

  lemma TwoDigits(x: char, y: char)
    requires Digit(x) && Digit(y)
    ensures Atoi([x, y]) == Some(10 * Value(x) + Value(y))
  {
    assert [x, y][..1] == [x];
    assert [x][..0] == "";
    assert DigitsValue([x]) == Value(x);
  }

  /** The minor "1.xy". */
  lemma MinorText(x: char, y: char)
    requires Digit(x) && Digit(y)
    ensures IsMinor(['1', '.', x, y], 1, 10 * Value(x) + Value(y))
  {
    var parts := [['1'], [x, y]];
    assert parts[1..] == [[x, y]];
    assert Join(parts, ".") == ['1', '.', x, y];
    SplitJoin(parts, '.');
    OneDigit('1');
    TwoDigits(x, y);
  }

  /** The patch release "1.xy.z". */
  lemma PatchText(x: char, y: char, z: char)
    requires Digit(x) && Digit(y) && Digit(z)
    ensures MinorOf(['1', '.', x, y, '.', z]) == ['1', '.', x, y]
    ensures ParseSemver(['1', '.', x, y, '.', z]) == Some(Semver(1, 10 * Value(x) + Value(y), Value(z)))
  {
    var parts := [['1'], [x, y], [z]];
    assert parts[1..] == [[x, y], [z]];
    assert parts[1..][1..] == [[z]];
    assert Join([[z]], ".") == [z];
    assert Join([[x, y], [z]], ".") == [x, y, '.', z];
    assert Join(parts, ".") == ['1', '.', x, y, '.', z];
    SplitJoin(parts, '.');
    OneDigit('1');
    TwoDigits(x, y);
    OneDigit(z);
  }

  /** A row of the matrix written with the minor "1.xy" and one-digit patches. */
  ghost predicate RowText(row: VersionInfo, x: char, y: char, patches: string) {
    && row.version == ['1', '.', x, y]
    && |row.patchVersions| == |patches| > 0
    && (forall k :: 0 <= k < |patches| ==> row.patchVersions[k] == ['1', '.', x, y, '.', patches[k]])
    && AllDigits(patches)
    && (forall j, k :: 0 <= j < k < |patches| ==> patches[j] < patches[k])
  }

  /** Such a row, accepting upgrades from the single minor "1.uv" below it, has the coherent shape. */
  lemma RowTextShape(matrix: Matrix, i: nat, x: char, y: char, patches: string, u: char, v: char)
    requires i < |matrix| && RowText(matrix[i], x, y, patches)
    requires Digit(x) && Digit(y) && Digit(u) && Digit(v)
    requires 10 * Value(x) + Value(y) == 27 + i == 10 * Value(u) + Value(v) + 1
    requires matrix[i].allowedFromVersions == [['1', '.', u, v]]
    requires i > 0 ==> matrix[i - 1].version == ['1', '.', u, v]
    ensures RowShape(matrix, i, 1, 27)
  {
    hide IsMinor, MinorOf, ParseSemver;
    MinorText(x, y);
    MinorText(u, v);
    forall k | 0 <= k < |patches|
      ensures MinorOf(matrix[i].patchVersions[k]) == matrix[i].version
      ensures ParseSemver(matrix[i].patchVersions[k]).Some?
      ensures PatchNumber(matrix[i].patchVersions[k]) == Value(patches[k])
    {
      PatchText(x, y, patches[k]);
    }
  }

  lemma RowIsCoherent(i: nat)
    requires i < |SUPPORTED_VERSIONS|
    ensures RowShape(SUPPORTED_VERSIONS, i, 1, 27)
  {
    hide RowShape;
    var m := SUPPORTED_VERSIONS;
    match i {
      case 0 => RowTextShape(m, 0, '2', '7', "0", '2', '6');
      case 1 => RowTextShape(m, 1, '2', '8', "34", '2', '7');
      case 2 => RowTextShape(m, 2, '2', '9', "67", '2', '8');
      case 3 => RowTextShape(m, 3, '3', '0', "4568", '2', '9');
      case 4 => RowTextShape(m, 4, '3', '1', "0124", '3', '0');
      case 5 => RowTextShape(m, 5, '3', '2', "01", '3', '1');
    }
  }

  /** The shipped matrix has the shape the upgrade-path results need. */
  lemma SupportedVersionsAreCoherent()
    ensures Coherent(SUPPORTED_VERSIONS, 1, 27)
  {
    forall i | 0 <= i < |SUPPORTED_VERSIONS| ensures RowShape(SUPPORTED_VERSIONS, i, 1, 27) {
      RowIsCoherent(i);
    }
  }
}
