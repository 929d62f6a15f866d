/**
 Server versions (internal/temporal/versions.go): the support matrix, the
 upgrade-path check, and what chains of allowed moves can reach.  The matrix is a
 parameter, so that the results hold for every matrix of the generated shape;
 module `VersionMatrix` holds the generated one.
 */
module Versions {
  import opened Wrappers
  import opened GoStrings

  datatype VersionInfo = VersionInfo(
    version: string,
    patchVersions: seq<string>,
    minSchemaSQL: string,
    minSchemaSQLVisibility: string,
    minSchemaCassandra: string,
    minSchemaES: string,
    allowedFromVersions: seq<string>)

  type Matrix = seq<VersionInfo>

  datatype Semver = Semver(major: int, minor: int, patch: int) {
    predicate AtMost(other: Semver) {
      || major < other.major
      || (major == other.major && minor < other.minor)
      || (major == other.major && minor == other.minor && patch <= other.patch)
    }
  }

  function ParseSemver(v: string): Option<Semver> {
    var parts := Split(v, '.');
    if |parts| != 3 then None
    else
      var major, minor, patch := Atoi(parts[0]), Atoi(parts[1]), Atoi(parts[2]);
      if major.None? || minor.None? || patch.None? then None
      else Some(Semver(major.value, minor.value, patch.value))
  }

  function MinorOf(v: string): string {
    var parts := Split(v, '.');
    if |parts| >= 2 then parts[0] + "." + parts[1] else v
  }

  /** A version parses exactly when it is three numbers joined by dots, and then to those numbers. */
  lemma ParsedExactly(v: string, n: Semver)
    ensures ParseSemver(v) == Some(n) <==>
              exists x, y, z :: v == Dotted(x, y, z) && '.' !in x && '.' !in y && '.' !in z
                && Atoi(x) == Some(n.major) && Atoi(y) == Some(n.minor) && Atoi(z) == Some(n.patch)
  {
    var parts := Split(v, '.');
    if ParseSemver(v) == Some(n) {
      assert parts[0] in parts && parts[1] in parts && parts[2] in parts;
      JoinedThree(parts);
      assert v == Dotted(parts[0], parts[1], parts[2]);
    }
    if x, y, z :| v == Dotted(x, y, z) && '.' !in x && '.' !in y && '.' !in z
                  && Atoi(x) == Some(n.major) && Atoi(y) == Some(n.minor) && Atoi(z) == Some(n.patch) {
      JoinedThree([x, y, z]);
      SplitJoin([x, y, z], '.');
    }
  }

  function Dotted(x: string, y: string, z: string): string {
    x + "." + (y + "." + z)
  }

  lemma JoinedThree(parts: seq<string>)
    requires |parts| == 3
    ensures Join(parts, ".") == Dotted(parts[0], parts[1], parts[2])
  {
    assert parts[1..][1..] == [parts[2]];
    assert Join(parts[1..], ".") == parts[1] + "." + parts[2];
  }

  /** The minor of a version is what stands before its second dot, or all of it. */
  lemma MinorExactly(x: string, y: string, rest: string)
    requires '.' !in x && '.' !in y
    ensures MinorOf(x) == x
    ensures MinorOf(x + "." + y) == x + "." + y
    ensures MinorOf(x + "." + (y + "." + rest)) == x + "." + y
  {
    SplitJoin([x], '.');
    assert Join([x], ".") == x;
    SplitJoin([x, y], '.');
    assert [x, y][1..] == [y];
    assert Join([x, y], ".") == x + "." + y;
    var tail := Split(rest, '.');
    var parts := [x, y] + tail;
    assert parts[1..] == [y] + tail && parts[1..][1..] == tail;
    assert Join(parts, ".") == x + "." + (y + "." + rest);
    SplitJoin(parts, '.');
  }

  function LookupFrom(matrix: Matrix, minor: string, i: nat): Option<VersionInfo>
    decreases |matrix| - i
  {
    if i >= |matrix| then None
    else if matrix[i].version == minor then Some(matrix[i])
    else LookupFrom(matrix, minor, i + 1)
  }

  /** `LookupVersion`: the first matrix row whose minor matches; `None` is the error. */
  function LookupVersion(matrix: Matrix, v: string): Option<VersionInfo> {
    LookupFrom(matrix, MinorOf(v), 0)
  }

  /** The row found is the first one for the version's minor. */
  lemma LookupExactly(matrix: Matrix, v: string, info: VersionInfo)
    ensures LookupVersion(matrix, v) == Some(info) <==> FirstIs(matrix, (row: VersionInfo) => row.version == MinorOf(v), info)
  {
    LookupFromExactly(matrix, MinorOf(v), 0, info);
    assert matrix[0..] == matrix;
  }

  lemma {:induction false} LookupFromExactly(matrix: Matrix, minor: string, i: nat, info: VersionInfo)
    requires i <= |matrix|
    ensures LookupFrom(matrix, minor, i) == Some(info) <==> FirstIs(matrix[i..], (row: VersionInfo) => row.version == minor, info)
    decreases |matrix| - i
  {
    if i < |matrix| {
      FirstOfRest(matrix[i..], (row: VersionInfo) => row.version == minor, info);
      assert matrix[i..][1..] == matrix[i + 1..];
      LookupFromExactly(matrix, minor, i + 1, info);
    }
  }

  predicate IsSupported(matrix: Matrix, v: string) {
    exists i :: 0 <= i < |matrix| && matrix[i].version == MinorOf(v) && v in matrix[i].patchVersions
  }

  /** `CanUpgrade`; `None` is its error result. */
  function CanUpgrade(matrix: Matrix, from: string, to: string): Option<bool> {
    if !IsSupported(matrix, to) then None
    else
      var f, t := ParseSemver(from), ParseSemver(to);
      if f.None? || t.None? then None
      else if t.value.major == f.value.major && t.value.minor == f.value.minor then
        Some(t.value.patch >= f.value.patch)
      else
        var info := LookupVersion(matrix, to);
        if info.None? then None else Some(MinorOf(from) in info.value.allowedFromVersions)
  }

  /** `validateUpgradePath` of the webhook accepts changing the spec's version from `from` to `to`. */
  predicate MoveAdmitted(matrix: Matrix, from: string, to: string) {
    from == to || CanUpgrade(matrix, from, to) == Some(true)
  }

  // ----- chains of admitted moves -----

  /** `path` is a chain of versions, each next one individually allowed by `CanUpgrade`. */
  ghost predicate IsChain(matrix: Matrix, path: seq<string>) {
    && |path| >= 1
    && forall i :: 0 < i < |path| ==> CanUpgrade(matrix, path[i - 1], path[i]) == Some(true)
  }

  ghost predicate Joins(matrix: Matrix, path: seq<string>, from: string, to: string) {
    IsChain(matrix, path) && path[0] == from && path[|path| - 1] == to
  }

  ghost predicate Reaches(matrix: Matrix, from: string, to: string) {
    exists path :: Joins(matrix, path, from, to)
  }

  lemma ReachesItself(matrix: Matrix, v: string)
    ensures Reaches(matrix, v, v)
  {
    assert Joins(matrix, [v], v, v);
  }

  lemma ReachesExtends(matrix: Matrix, from: string, mid: string, to: string)
    requires Reaches(matrix, from, mid)
    requires MoveAdmitted(matrix, mid, to)
    ensures Reaches(matrix, from, to)
  {
    hide CanUpgrade;
    var path :| Joins(matrix, path, from, mid);
    if mid != to {
      assert Joins(matrix, path + [to], from, to);
    }
  }

  // ----- matrices of the generated shape -----

  /** Row `i` describes minor `major.(base + i)` and accepts upgrades from the minor just below. */
  ghost predicate RowShape(matrix: Matrix, i: nat, major: nat, base: nat)
    requires i < |matrix|
  {
    var row := matrix[i];
    && IsMinor(row.version, major, base + i)
    && row.patchVersions != []
    && (forall k :: 0 <= k < |row.patchVersions| ==>
          && MinorOf(row.patchVersions[k]) == row.version
          && ParseSemver(row.patchVersions[k]).Some?)
    && PatchesAscend(row.patchVersions)
    && (forall m :: m in row.allowedFromVersions ==> IsMinor(m, major, base + i - 1))
    && (i > 0 ==> matrix[i - 1].version in row.allowedFromVersions)
  }

  function PatchNumber(v: string): int {
    if ParseSemver(v).Some? then ParseSemver(v).value.patch else -1
  }

  ghost predicate PatchesAscend(patches: seq<string>) {
    forall j, k :: 0 <= j < k < |patches| ==> PatchNumber(patches[j]) < PatchNumber(patches[k])
  }

  lemma AscendingPatchesDiffer(patches: seq<string>, a: string, b: string)
    requires PatchesAscend(patches) && a in patches && b in patches
    requires PatchNumber(a) == PatchNumber(b)
    ensures a == b
  {
  }

  /** `m` spells the minor version `major.minor`. */
  ghost predicate IsMinor(m: string, major: int, minor: int) {
    && |Split(m, '.')| == 2
    && Atoi(Split(m, '.')[0]) == Some(major)
    && Atoi(Split(m, '.')[1]) == Some(minor)
  }

  ghost predicate Coherent(matrix: Matrix, major: nat, base: nat) {
    forall i :: 0 <= i < |matrix| ==> RowShape(matrix, i, major, base)
  }

  /** The row of a supported version is where its minor number says. */
  lemma RowOf(matrix: Matrix, major: nat, base: nat, v: string) returns (i: nat)
    requires Coherent(matrix, major, base)
    requires IsSupported(matrix, v)
    ensures i < |matrix| && v in matrix[i].patchVersions && MinorOf(v) == matrix[i].version
    ensures ParseSemver(v).Some?
    ensures ParseSemver(v).value.major == major && ParseSemver(v).value.minor == base + i
    ensures LookupVersion(matrix, v) == Some(matrix[i])
  {
    hide ParseSemver, IsMinor, MinorOf, PatchesAscend, LookupFrom;
    i :| 0 <= i < |matrix| && matrix[i].version == MinorOf(v) && v in matrix[i].patchVersions;
    assert RowShape(matrix, i, major, base);
    MinorNumbers(v, major, base + i);
    LookupFinds(matrix, major, base, i, 0);
  }

  lemma LookupFinds(matrix: Matrix, major: nat, base: nat, i: nat, from: nat)
    requires Coherent(matrix, major, base)
    requires from <= i < |matrix|
    ensures LookupFrom(matrix, matrix[i].version, from) == Some(matrix[i])
    decreases i - from
  {
    assert RowShape(matrix, i, major, base) && RowShape(matrix, from, major, base);
    if from < i {
      LookupFinds(matrix, major, base, i, from + 1);
    }
  }

  /** A parsable version whose minor is `major.minor` has those numbers. */
  lemma MinorNumbers(v: string, major: int, minor: int)
    requires ParseSemver(v).Some? && IsMinor(MinorOf(v), major, minor)
    ensures ParseSemver(v).value.major == major && ParseSemver(v).value.minor == minor
  {
    var parts := Split(v, '.');
    assert parts[0] in parts && parts[1] in parts;
    var two := parts[..2];
    assert Join(two, ".") == MinorOf(v) by {
      assert two[1..] == [parts[1]];
    }
    SplitJoin(two, '.');
  }

  lemma AllowedSource(matrix: Matrix, major: nat, base: nat, i: nat, from: string)
    requires Coherent(matrix, major, base) && i < |matrix|
    requires ParseSemver(from).Some? && MinorOf(from) in matrix[i].allowedFromVersions
    ensures ParseSemver(from).value.major == major && ParseSemver(from).value.minor == base + i - 1
  {
    AcceptsOnlyPrevious(matrix, major, base, i, MinorOf(from));
    MinorNumbers(from, major, base + i - 1);
  }

  /**
   An allowed move never lowers the version and never skips a minor, whatever
   string it starts from.
   */
  lemma AllowedMoveAscends(matrix: Matrix, major: nat, base: nat, from: string, to: string)
    requires Coherent(matrix, major, base)
    requires CanUpgrade(matrix, from, to) == Some(true)
    ensures ParseSemver(from).Some? && ParseSemver(to).Some?
    ensures ParseSemver(from).value.AtMost(ParseSemver(to).value)
    ensures ParseSemver(from).value.major == ParseSemver(to).value.major
    ensures ParseSemver(to).value.minor - ParseSemver(from).value.minor in {0, 1}
  {
    hide IsMinor, MinorOf, ParseSemver, IsSupported;
    var i := RowOf(matrix, major, base, to);
    var f, t := ParseSemver(from).value, ParseSemver(to).value;
    if !(t.major == f.major && t.minor == f.minor) {
      AllowedSource(matrix, major, base, i, from);
    }
  }

  /** Supported versions are told apart by their numbers. */
  lemma SemverIsInjective(matrix: Matrix, major: nat, base: nat, a: string, b: string)
    requires Coherent(matrix, major, base)
    requires IsSupported(matrix, a) && IsSupported(matrix, b)
    requires ParseSemver(a) == ParseSemver(b)
    ensures a == b
  {
    var i := RowOf(matrix, major, base, a);
    var j := RowOf(matrix, major, base, b);
    hide ParseSemver, MinorOf, IsMinor, PatchesAscend, IsSupported;
    assert RowShape(matrix, i, major, base);
    AscendingPatchesDiffer(matrix[i].patchVersions, a, b);
  }

  lemma AtMostTransitive(a: Semver, b: Semver, c: Semver)
    requires a.AtMost(b) && b.AtMost(c)
    ensures a.AtMost(c)
  {
  }

  lemma {:induction false} ChainAscends(matrix: Matrix, major: nat, base: nat, path: seq<string>)
    requires Coherent(matrix, major, base)
    requires IsChain(matrix, path) && ParseSemver(path[0]).Some?
    ensures ParseSemver(path[|path| - 1]).Some?
    ensures ParseSemver(path[0]).value.AtMost(ParseSemver(path[|path| - 1]).value)
  {
    hide ParseSemver, CanUpgrade;
    if |path| > 1 {
      AllowedMoveAscends(matrix, major, base, path[0], path[1]);
      var rest := path[1..];
      assert forall i :: 0 < i < |rest| ==> rest[i - 1] == path[i] && rest[i] == path[i + 1];
      ChainAscends(matrix, major, base, rest);
      AtMostTransitive(ParseSemver(path[0]).value, ParseSemver(path[1]).value, ParseSemver(path[|path| - 1]).value);
    }
  }

  lemma AcceptsPrevious(matrix: Matrix, major: nat, base: nat, i: nat)
    requires Coherent(matrix, major, base) && i < |matrix|
    ensures i > 0 ==> matrix[i - 1].version in matrix[i].allowedFromVersions
  {
    assert RowShape(matrix, i, major, base);
  }

  lemma AcceptsOnlyPrevious(matrix: Matrix, major: nat, base: nat, i: nat, m: string)
    requires Coherent(matrix, major, base) && i < |matrix| && m in matrix[i].allowedFromVersions
    ensures IsMinor(m, major, base + i - 1)
  {
    assert RowShape(matrix, i, major, base);
  }

  /** Inside one minor, and to any patch of the next minor, a single move is allowed. */
  lemma OneMove(matrix: Matrix, major: nat, base: nat, from: string, to: string)
    requires Coherent(matrix, major, base)
    requires IsSupported(matrix, from) && IsSupported(matrix, to)
    requires ParseSemver(from).Some? && ParseSemver(to).Some?
    requires ParseSemver(from).value.AtMost(ParseSemver(to).value)
    requires ParseSemver(to).value.minor - ParseSemver(from).value.minor <= 1
    ensures CanUpgrade(matrix, from, to) == Some(true)
  {
    var i := RowOf(matrix, major, base, from);
    var j := RowOf(matrix, major, base, to);
    hide ParseSemver, MinorOf, IsMinor, IsSupported;
    AcceptsPrevious(matrix, major, base, j);
  }

  /**
   Between supported versions a single move is allowed exactly when it does not go down and
   crosses at most one minor; to an unsupported version, or from one that does not parse, the
   check errs.
   */
  lemma MoveAllowedExactly(matrix: Matrix, major: nat, base: nat, from: string, to: string)
    requires Coherent(matrix, major, base)
    ensures CanUpgrade(matrix, from, to) == None <==> !IsSupported(matrix, to) || ParseSemver(from).None?
    ensures IsSupported(matrix, from) && IsSupported(matrix, to) ==>
              && ParseSemver(from).Some? && ParseSemver(to).Some?
              && (CanUpgrade(matrix, from, to) == Some(true) <==>
                    && ParseSemver(from).value.AtMost(ParseSemver(to).value)
                    && ParseSemver(to).value.minor - ParseSemver(from).value.minor <= 1)
  {
    hide ParseSemver, MinorOf, IsMinor, LookupVersion;
    if IsSupported(matrix, to) {
      var j := RowOf(matrix, major, base, to);
      if IsSupported(matrix, from) {
        var i := RowOf(matrix, major, base, from);
        if CanUpgrade(matrix, from, to) == Some(true) { AllowedMoveAscends(matrix, major, base, from, to); }
        if ParseSemver(from).value.AtMost(ParseSemver(to).value) && ParseSemver(to).value.minor - ParseSemver(from).value.minor <= 1 {
          OneMove(matrix, major, base, from, to);
        }
      }
    }
  }

  lemma FirstPatch(matrix: Matrix, major: nat, base: nat, i: nat) returns (v: string)
    requires Coherent(matrix, major, base) && i < |matrix|
    ensures IsSupported(matrix, v)
    ensures ParseSemver(v).Some?
    ensures ParseSemver(v).value.major == major && ParseSemver(v).value.minor == base + i
  {
    hide ParseSemver, IsMinor, MinorOf, PatchesAscend;
    assert RowShape(matrix, i, major, base);
    v := matrix[i].patchVersions[0];
    MinorNumbers(v, major, base + i);
  }

  lemma {:induction false} ClimbReaches(matrix: Matrix, major: nat, base: nat, from: string, to: string)
    requires Coherent(matrix, major, base)
    requires IsSupported(matrix, from) && IsSupported(matrix, to)
    requires ParseSemver(from).Some? && ParseSemver(to).Some?
    requires ParseSemver(from).value.AtMost(ParseSemver(to).value)
    ensures Reaches(matrix, from, to)
    decreases ParseSemver(to).value.minor - ParseSemver(from).value.minor
  {
    var i := RowOf(matrix, major, base, from);
    var j := RowOf(matrix, major, base, to);
    hide ParseSemver, MinorOf, IsMinor, IsSupported, Reaches, CanUpgrade;
    if j <= i + 1 {
      OneMove(matrix, major, base, from, to);
      ReachesItself(matrix, from);
      ReachesExtends(matrix, from, from, to);
    } else {
      var mid := FirstPatch(matrix, major, base, j - 1);
      ClimbReaches(matrix, major, base, from, mid);
      OneMove(matrix, major, base, mid, to);
      ReachesExtends(matrix, from, mid, to);
    }
  }

  /**
   Between supported versions, some chain of individually allowed moves exists
   exactly when the target is not below the source; so two distinct versions joined
   by a chain are strictly ordered, and no chain leads back.
   */
  lemma ReachesExactlyUpward(matrix: Matrix, major: nat, base: nat, from: string, to: string)
    requires Coherent(matrix, major, base)
    requires IsSupported(matrix, from) && IsSupported(matrix, to)
    ensures ParseSemver(from).Some? && ParseSemver(to).Some?
    ensures Reaches(matrix, from, to) <==> ParseSemver(from).value.AtMost(ParseSemver(to).value)
    ensures from != to && Reaches(matrix, from, to) ==> !ParseSemver(to).value.AtMost(ParseSemver(from).value)
  {
    var i := RowOf(matrix, major, base, from);
    var j := RowOf(matrix, major, base, to);
    hide ParseSemver, MinorOf, IsMinor, IsSupported, Reaches, CanUpgrade;
    if Reaches(matrix, from, to) {
      var path :| Joins(matrix, path, from, to);
      ChainAscends(matrix, major, base, path);
      if from != to && ParseSemver(from) == ParseSemver(to) {
        SemverIsInjective(matrix, major, base, from, to);
      }
    }
    if ParseSemver(from).value.AtMost(ParseSemver(to).value) {
      ClimbReaches(matrix, major, base, from, to);
    }
  }
}
