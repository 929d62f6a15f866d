/**
 The queries on the support matrix (internal/temporal/versions.go) as the loops they are,
 proved against the functions of `Versions`, and what sorting the matrix amounts to.
 */
module VersionQueries {
  import opened Wrappers
  import opened GoStrings
  import opened Versions
  import opened ClusterTypes
  import opened Upgrades

  method ParseVersion(v: string) returns (r: Option<Semver>)
    ensures r == ParseSemver(v)
  {
    var parts := Split(v, '.');
    if |parts| != 3 { return None; }
    var out := new int[3];
    for i := 0 to 3
      invariant forall k :: 0 <= k < i ==> Atoi(parts[k]) == Some(out[k])
    {
      var n := Atoi(parts[i]);
      if n.None? { return None; }
      out[i] := n.value;
    }
    return Some(Semver(out[0], out[1], out[2]));
  }

  method Lookup(matrix: Matrix, v: string) returns (r: Option<VersionInfo>)
    ensures r == LookupVersion(matrix, v)
  {
    var minor := MinorOf(v);
    for i := 0 to |matrix|
      invariant LookupVersion(matrix, v) == LookupFrom(matrix, minor, i)
    {
      if matrix[i].version == minor { return Some(matrix[i]); }
    }
    return None;
  }

  method Supports(matrix: Matrix, v: string) returns (r: bool)
    ensures r <==> IsSupported(matrix, v)
  {
    var minor := MinorOf(v);
    for i := 0 to |matrix|
      invariant forall k :: 0 <= k < i ==> matrix[k].version != minor || v !in matrix[k].patchVersions
    {
      if matrix[i].version == minor {
        var patches := matrix[i].patchVersions;
        for j := 0 to |patches|
          invariant v !in patches[..j]
        {
          if patches[j] == v { return true; }
        }
        assert patches[..|patches|] == patches;
      }
    }
    return false;
  }

  /** `CanUpgrade`. */
  method AllowsUpgrade(matrix: Matrix, from: string, to: string) returns (r: Option<bool>)
    ensures r == CanUpgrade(matrix, from, to)
  {
    hide ParseSemver, LookupVersion, IsSupported, MinorOf;
    var supported := Supports(matrix, to);
    if !supported { return None; }
    var f := ParseVersion(from);
    if f.None? { return None; }
    var t := ParseVersion(to);
    if t.None? { return None; }
    if t.value.major == f.value.major && t.value.minor == f.value.minor {
      return Some(t.value.patch >= f.value.patch);
    }
    var info := Lookup(matrix, to);
    if info.None? { return None; }
    var minor, allowed := MinorOf(from), info.value.allowedFromVersions;
    for i := 0 to |allowed|
      invariant minor !in allowed[..i]
    {
      if allowed[i] == minor { return Some(true); }
    }
    assert allowed[..|allowed|] == allowed;
    return Some(false);
  }

  /** The patch number the running maximum starts from: an unparsable first entry counts as zero. */
  function StartingPatch(v: string): int {
    if ParseSemver(v).Some? then ParseSemver(v).value.patch else 0
  }

  /**
   `ResolveLatestPatch`: a registered patch of the minor's row that no other parsable patch
   of the row exceeds.
   */
  method ResolveLatestPatch(matrix: Matrix, minor: string) returns (r: Option<string>)
    ensures r.None? <==> LookupVersion(matrix, minor).None? || LookupVersion(matrix, minor).value.patchVersions == []
    ensures r.Some? ==>
              var patches := LookupVersion(matrix, minor).value.patchVersions;
              && r.value in patches
              && forall p :: p in patches && ParseSemver(p).Some? ==>
                   ParseSemver(p).value.patch <= if ParseSemver(r.value).Some? then ParseSemver(r.value).value.patch else 0
  {
    hide ParseSemver, LookupVersion;
    var info := Lookup(matrix, minor);
    if info.None? || info.value.patchVersions == [] { return None; }
    var patches := info.value.patchVersions;
    var latest := patches[0];
    var parsed := ParseVersion(latest);
    var highest := if parsed.Some? then parsed.value.patch else 0;
    for i := 1 to |patches|
      invariant latest in patches && highest == StartingPatch(latest)
      invariant forall k :: 0 <= k < i && ParseSemver(patches[k]).Some? ==> ParseSemver(patches[k]).value.patch <= highest
    {
      var v := ParseVersion(patches[i]);
      if v.Some? && v.value.patch > highest {
        latest, highest := patches[i], v.value.patch;
      }
    }
    return Some(latest);
  }

  // ----- the sorted list -----

  function AllPatches(matrix: Matrix): seq<string> {
    if matrix == [] then []
    else AllPatches(matrix[..|matrix| - 1]) + matrix[|matrix| - 1].patchVersions
  }

  /** The append loop of `SupportedVersions`. */
  method CollectPatches(matrix: Matrix) returns (out: seq<string>)
    ensures out == AllPatches(matrix)
  {
    out := [];
    for i := 0 to |matrix|
      invariant out == AllPatches(matrix[..i])
    {
      assert matrix[..i + 1][..i] == matrix[..i];
      out := out + matrix[i].patchVersions;
    }
    assert matrix[..|matrix|] == matrix;
  }

  /** The order `SupportedVersions` sorts by, on versions that parse. */
  predicate Precedes(a: string, b: string) {
    ParseSemver(a).Some? && ParseSemver(b).Some? && !ParseSemver(b).value.AtMost(ParseSemver(a).value)
  }

  ghost predicate Ascending(s: seq<string>) {
    forall j, k :: 0 <= j < k < |s| ==> Precedes(s[j], s[k])
  }

  /** What a sort guarantees: nothing stands before an element that must precede it. */
  ghost predicate Sorted(s: seq<string>) {
    forall j, k :: 0 <= j < k < |s| ==> !Precedes(s[k], s[j])
  }

  ghost predicate MinorBelow(v: string, major: int, bound: int) {
    ParseSemver(v).Some? && ParseSemver(v).value.major == major && ParseSemver(v).value.minor < bound
  }

  lemma RowAscends(matrix: Matrix, major: nat, base: nat, i: nat)
    requires i < |matrix| && RowShape(matrix, i, major, base)
    ensures Ascending(matrix[i].patchVersions)
    ensures forall v :: v in matrix[i].patchVersions ==>
              ParseSemver(v).Some? && ParseSemver(v).value.major == major && ParseSemver(v).value.minor == base + i
  {
    hide ParseSemver, IsMinor, MinorOf;
    var patches := matrix[i].patchVersions;
    forall k | 0 <= k < |patches|
      ensures ParseSemver(patches[k]).Some? && ParseSemver(patches[k]).value.major == major
           && ParseSemver(patches[k]).value.minor == base + i
    {
      MinorNumbers(patches[k], major, base + i);
    }
    assert PatchesAscend(patches);
  }

  lemma ConcatenationAscends(a: seq<string>, b: seq<string>, major: int, bound: int)
    requires Ascending(a) && Ascending(b)
    requires forall v :: v in a ==> MinorBelow(v, major, bound)
    requires forall v :: v in b ==> ParseSemver(v).Some? && ParseSemver(v).value.major == major && ParseSemver(v).value.minor == bound
    ensures Ascending(a + b)
  {
    var s := a + b;
    forall j, k | 0 <= j < k < |s| ensures Precedes(s[j], s[k]) {
      hide ParseSemver;
      if k < |a| {
        assert s[j] == a[j] && s[k] == a[k];
      } else if j < |a| {
        assert s[j] == a[j] && s[j] in a && s[k] == b[k - |a|] && s[k] in b;
        assert MinorBelow(s[j], major, bound);
      } else {
        assert s[j] == b[j - |a|] && s[k] == b[k - |a|];
      }
    }
  }

  /** In a matrix of the generated shape, appending the rows already lists every version in strictly ascending order. */
  lemma {:induction false} AppendedRowsAscend(matrix: Matrix, major: nat, base: nat)
    requires Coherent(matrix, major, base)
    ensures Ascending(AllPatches(matrix))
    ensures forall v :: v in AllPatches(matrix) ==> MinorBelow(v, major, base + |matrix|)
  {
    hide ParseSemver, IsMinor, MinorOf;
    if matrix != [] {
      var last := |matrix| - 1;
      var before := matrix[..last];
      assert Coherent(before, major, base) by {
        forall i | 0 <= i < |before| ensures RowShape(before, i, major, base) { assert RowShape(matrix, i, major, base); }
      }
      AppendedRowsAscend(before, major, base);
      assert RowShape(matrix, last, major, base);
      RowAscends(matrix, major, base, last);
      hide Ascending;
      ConcatenationAscends(AllPatches(before), matrix[last].patchVersions, major, base + last);
    }
  }

  lemma SameHead(a: seq<string>, b: seq<string>)
    requires Ascending(a) && Sorted(b) && multiset(a) == multiset(b) && a != [] && b != []
    ensures a[0] == b[0]
  {
    hide Precedes;
    assert b[0] in multiset(b) && a[0] in multiset(a);
    var q :| 0 <= q < |a| && a[q] == b[0];
    var p :| 0 <= p < |b| && b[p] == a[0];
  }

  lemma TailElements(a: seq<string>)
    requires a != []
    ensures multiset(a[1..]) == multiset(a) - multiset{a[0]}
  {
    assert a == [a[0]] + a[1..];
  }

  lemma TailsInOrder(a: seq<string>)
    requires a != []
    ensures Ascending(a) ==> Ascending(a[1..])
    ensures Sorted(a) ==> Sorted(a[1..])
  {
    hide Precedes;
  }

  /** A strictly ascending list is the only sorted arrangement of its elements. */
  lemma {:induction false} SortIsUnique(a: seq<string>, b: seq<string>)
    requires Ascending(a) && Sorted(b) && multiset(a) == multiset(b)
    ensures a == b
  {
    assert |a| == |multiset(a)| == |multiset(b)| == |b|;
    if a != [] {
      hide Ascending, Sorted;
      SameHead(a, b);
      TailElements(a);
      TailElements(b);
      TailsInOrder(a);
      TailsInOrder(b);
      SortIsUnique(a[1..], b[1..]);
      assert a == [a[0]] + a[1..] && b == [b[0]] + b[1..];
    }
  }

  /**
   `SupportedVersions`, for any sort: its result is the rows in order, and its last element,
   `LatestSupportedVersion`, is at least as new as every supported version.
   */
  lemma SortedVersionsAreTheRows(matrix: Matrix, major: nat, base: nat, out: seq<string>)
    requires Coherent(matrix, major, base)
    requires multiset(out) == multiset(AllPatches(matrix)) && Sorted(out)
    ensures out == AllPatches(matrix)
    ensures forall v :: IsSupported(matrix, v) ==>
              out != [] && (v == out[|out| - 1] || Precedes(v, out[|out| - 1]))
  {
    hide ParseSemver, IsMinor, MinorOf, Precedes;
    AppendedRowsAscend(matrix, major, base);
    SortIsUnique(AllPatches(matrix), out);
    forall v | IsSupported(matrix, v) ensures v in out {
      var i :| 0 <= i < |matrix| && v in matrix[i].patchVersions;
      RowIncluded(matrix, i, v);
    }
  }

  lemma {:induction false} RowIncluded(matrix: Matrix, i: nat, v: string)
    requires i < |matrix| && v in matrix[i].patchVersions
    ensures v in AllPatches(matrix)
  {
    if i < |matrix| - 1 {
      assert matrix[..|matrix| - 1][i] == matrix[i];
      RowIncluded(matrix[..|matrix| - 1], i, v);
    }
  }

  // ----- default images -----

  /** The webhook's defaulting of `spec.image`: a value that only spells out the default is cleared. */
  function DefaultImage(spec: Spec): Spec {
    if IsDefaultServerImage(spec.image) then spec.(image := "") else spec
  }

  /** The image only spells out the default: the public server image at some version. */
  ghost predicate SpellsDefault(image: string) {
    exists v :: ParseSemver(v).Some? && image == "temporalio/server:" + v
  }

  /** Which image a service of the spec runs: a custom one if the spec names one, else the public server image at the version. */
  lemma ServerImageExactly(spec: Spec, version: string)
    ensures IsDefaultServerImage(spec.image) <==> SpellsDefault(spec.image)
    ensures spec.image != "" && !SpellsDefault(spec.image) ==> ServerImage(spec, version) == spec.image
    ensures spec.image == "" || SpellsDefault(spec.image) ==>
              ServerImage(spec, version) == "temporalio/server:" + if version != "" then version else spec.version
  {
    hide ParseSemver;
    var prefix := "temporalio/server:";
    if IsDefaultServerImage(spec.image) {
      var v := spec.image[|prefix|..];
      assert spec.image == prefix + v;
    }
    if SpellsDefault(spec.image) {
      var v :| ParseSemver(v).Some? && spec.image == prefix + v;
      assert spec.image[|prefix|..] == v;
    }
  }

  /**
   Clearing a default-shaped image changes no image the operator deploys, and afterwards the
   image follows the version unless it is a custom one.
   */
  lemma DefaultingKeepsImages(spec: Spec, version: string)
    ensures ServerImage(DefaultImage(spec), version) == ServerImage(spec, version)
    ensures DefaultImage(DefaultImage(spec)) == DefaultImage(spec)
    ensures DefaultImage(spec).image == "" && version != "" ==> ServerImage(spec, version) == SERVER_IMAGE_PREFIX + version
    ensures DefaultImage(spec).image != "" ==> ServerImage(spec, version) == spec.image
  {
    hide ParseSemver;
    assert !(SERVER_IMAGE_PREFIX <= "");
  }
}
