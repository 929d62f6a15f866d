/**
 The run theorems on the shipped version matrix: a concrete cluster that installs 1.30.8 and
 upgrades to 1.31.0, and the same edit made during an outage of a fresh install.
 */
module ShippedUpgrade {
  import opened Wrappers
  import opened GoStrings
  import SchemaVersions
  import opened Versions
  import opened VersionMatrix
  import opened ClusterTypes
  import opened Persistence
  import opened Upgrades
  import opened Controller
  import opened UpgradeProgress
  import opened DeploymentFacts
  import opened DatabaseRuns
  import opened FreshInstalls
  import opened Lifecycles

  /** The schema version "v1.xy". */
  function SchemaText(x: char, y: char): string {
    ['v', '1', '.', x, y]
  }

  lemma SchemaParts(x: char, y: char)
    requires Digit(x) && Digit(y)
    ensures TrimSpace(SchemaText(x, y)) == SchemaText(x, y)
    ensures SchemaVersions.Parts(SchemaText(x, y)) == [['1'], [x, y]]
  {
    var s := SchemaText(x, y);
    assert s[0] == 'v' && s[|s| - 1] == y;
    assert TrimLeft(s) == s && TrimRight(s) == s;
    assert s[1..] == ['1', '.', x, y];
    var parts := [['1'], [x, y]];
    assert parts[1..] == [[x, y]];
    assert Join(parts, ".") == ['1', '.', x, y];
    SplitJoin(parts, '.');
  }

  /** Two such versions compare as their minor numbers. */
  lemma SchemaOrder(x: char, y: char, u: char, v: char)
    requires Digit(x) && Digit(y) && Digit(u) && Digit(v)
    ensures SchemaVersions.SchemaSatisfies(SchemaText(x, y), SchemaText(u, v))
       <==> 10 * Value(x) + Value(y) >= 10 * Value(u) + Value(v)
  {
    var a, b := SchemaText(x, y), SchemaText(u, v);
    SchemaParts(x, y);
    SchemaParts(u, v);
    OneDigit('1');
    TwoDigits(x, y);
    TwoDigits(u, v);
    hide Atoi, TrimSpace, Split, SchemaVersions.Parts;
    assert SchemaVersions.Digit(a, 0) == SchemaVersions.Digit(b, 0) == 1;
    assert SchemaVersions.Digit(a, 1) == 10 * Value(x) + Value(y) && SchemaVersions.Digit(b, 1) == 10 * Value(u) + Value(v);
    assert SchemaVersions.Width(a, b) == 2;
    assert SchemaVersions.CompareFrom(a, b, 2) == 0;
    assert SchemaVersions.Compare(a, b) == SchemaVersions.CompareFrom(a, b, 1);
  }

  /** Row `i` of the matrix is the one its minor's patches find. */
  lemma RowFound(i: nat, v: string)
    requires i < |SUPPORTED_VERSIONS| && MinorOf(v) == SUPPORTED_VERSIONS[i].version
    ensures LookupVersion(SUPPORTED_VERSIONS, v) == Some(SUPPORTED_VERSIONS[i])
  {
    hide MinorOf, LookupFrom, Coherent;
    SupportedVersionsAreCoherent();
    LookupFinds(SUPPORTED_VERSIONS, 1, 27, i, 0);
  }

  lemma Patch308()
    ensures MinorOf("1.30.8") == V130.version && ParseSemver("1.30.8") == Some(Semver(1, 30, 8))
  {
    hide MinorOf, ParseSemver;
    PatchText('3', '0', '8');
    assert "1.30.8" == ['1', '.', '3', '0', '.', '8'] && V130.version == ['1', '.', '3', '0'];
  }

  lemma Patch310()
    ensures MinorOf("1.31.0") == V131.version && ParseSemver("1.31.0") == Some(Semver(1, 31, 0))
  {
    hide MinorOf, ParseSemver;
    PatchText('3', '1', '0');
    assert "1.31.0" == ['1', '.', '3', '1', '.', '0'] && V131.version == ['1', '.', '3', '1'];
  }

  /** The rows of the two versions, and that the edit from one to the other is admitted. */
  lemma ShippedRows()
    ensures LookupVersion(SUPPORTED_VERSIONS, "1.30.8") == Some(V130)
    ensures LookupVersion(SUPPORTED_VERSIONS, "1.31.0") == Some(V131)
    ensures MoveAdmitted(SUPPORTED_VERSIONS, "1.30.8", "1.31.0")
  {
    hide MinorOf, ParseSemver, LookupVersion;
    Patch308();
    Patch310();
    assert SUPPORTED_VERSIONS[3] == V130 && SUPPORTED_VERSIONS[4] == V131;
    RowFound(3, "1.30.8");
    RowFound(4, "1.31.0");
    assert V131.patchVersions[0] == "1.31.0";
    assert IsSupported(SUPPORTED_VERSIONS, "1.31.0");
    assert V131.allowedFromVersions[0] == V130.version;
  }

  /** What the rows ask of the SQL stores. */
  lemma ShippedSchemas()
    ensures V130.minSchemaSQL == SchemaText('1', '8') && V130.minSchemaSQLVisibility == SchemaText('1', '3')
    ensures V131.minSchemaSQL == SchemaText('1', '9') && V131.minSchemaSQLVisibility == SchemaText('1', '4')
  {
  }

  /** A directly connected cluster with this version in its spec is healthy when both stores are at what its row asks. */
  lemma PlainIsHealthy(matrix: Matrix, w: World, main: string, visibility: string)
    requires w.spec == Plain(w.spec.version) && LookupVersion(matrix, w.spec.version).Some?
    requires var info := LookupVersion(matrix, w.spec.version).value;
             SchemaVersions.SchemaSatisfies(main, info.minSchemaSQL)
             && SchemaVersions.SchemaSatisfies(visibility, info.minSchemaSQLVisibility)
    ensures Healthy(matrix, w, Calm(main, visibility))
  {
    hide SchemaVersions.SchemaSatisfies, LookupVersion;
  }

  /** The cluster that is created with 1.30.8 and edited to 1.31.0. */
  function NewCluster(main: string, visibility: string): World {
    World(0, Plain("1.30.8"), NEW_STATUS, NO_OBJECTS, map["main" := main, "visibility" := visibility])
  }

  /** With both databases at what 1.31 asks, the cluster installs 1.30.8 and, edited, ends up running 1.31.0. */
  lemma ShippedUpgradeHappens()
    ensures var main, visibility := SchemaText('1', '9'), SchemaText('1', '4');
            var w, env := NewCluster(main, visibility), Calm(main, visibility);
            var start := EditedSteps(SUPPORTED_VERSIONS, w, env, Plain("1.31.0"));
            var edited := Outcome(SUPPORTED_VERSIONS, w, start);
            var steps := start + UpgradeSteps(SUPPORTED_VERSIONS, edited, env, 10);
            && Promising(SUPPORTED_VERSIONS, w, env, env, Plain("1.31.0"))
            && IsRun(SUPPORTED_VERSIONS, Unfold(SUPPORTED_VERSIONS, w, steps), steps)
            && edited.status.version == "1.30.8"
            && Outcome(SUPPORTED_VERSIONS, w, steps).status.version == "1.31.0"
  {
    hide Promising, IsRun, Unfold, Outcome, EditedSteps, UpgradeSteps, SchemaText;
    var main, visibility := SchemaText('1', '9'), SchemaText('1', '4');
    ShippedIsPromising();
    InstallThenUpgradeHappens(SUPPORTED_VERSIONS, NewCluster(main, visibility), Calm(main, visibility), Calm(main, visibility),
                              Plain("1.31.0"));
  }

  /** Stores at what both versions ask make a new plain cluster promising. */
  lemma PlainIsPromising(matrix: Matrix, w: World, main: string, visibility: string, version: string)
    requires w.spec == Plain(w.spec.version) && w.status == NEW_STATUS && w.spec.version != "" && version !in {"", w.spec.version}
    requires Healthy(matrix, w, Calm(main, visibility)) && Healthy(matrix, w.(spec := Plain(version)), Calm(main, visibility))
    ensures Promising(matrix, w, Calm(main, visibility), Calm(main, visibility), Plain(version))
    ensures AllHarmless(Plain(version))
  {
    hide Healthy, Calm, ServerImage;
  }

  lemma ShippedIsPromising()
    ensures var main, visibility := SchemaText('1', '9'), SchemaText('1', '4');
            Promising(SUPPORTED_VERSIONS, NewCluster(main, visibility), Calm(main, visibility), Calm(main, visibility), Plain("1.31.0"))
    ensures AllHarmless(Plain("1.31.0"))
  {
    hide SchemaVersions.SchemaSatisfies, LookupVersion, Healthy, SchemaText, MoveAdmitted, Calm, Promising, AllHarmless;
    var main, visibility := SchemaText('1', '9'), SchemaText('1', '4');
    var w := NewCluster(main, visibility);
    ShippedRows();
    ShippedSchemas();
    SchemaOrder('1', '9', '1', '8');
    SchemaOrder('1', '4', '1', '3');
    SchemaOrder('1', '9', '1', '9');
    SchemaOrder('1', '4', '1', '4');
    PlainIsHealthy(SUPPORTED_VERSIONS, w, main, visibility);
    PlainIsHealthy(SUPPORTED_VERSIONS, w.(spec := Plain("1.31.0")), main, visibility);
    assert "1.30.8"[3] != "1.31.0"[3];
    PlainIsPromising(SUPPORTED_VERSIONS, w, main, visibility, "1.31.0");
  }

  /** With the main database at what 1.30 asks, the admitted edit during an outage deploys 1.31.0 on a schema that is too old for it. */
  lemma ShippedOutageDeploysTooEarly()
    ensures MoveAdmitted(SUPPORTED_VERSIONS, "1.30.8", "1.31.0")
    ensures var main, visibility := SchemaText('1', '8'), SchemaText('1', '4');
            var steps := OutageSteps(main, visibility, Plain("1.31.0"));
            var ws := OutageWorlds(SUPPORTED_VERSIONS, NewCluster(main, visibility), main, visibility, Plain("1.31.0"));
            && HonestRun(SUPPORTED_VERSIONS, ws, steps)
            && PassAt(SUPPORTED_VERSIONS, ws[2], OUTAGE).versions == Some(UniformVersions(Plain("1.31.0"), "1.31.0"))
            && !ReallySatisfies(SUPPORTED_VERSIONS, ws[2].databases, ws[2].spec, DefaultStore, "1.31.0")
  {
    hide SchemaVersions.SchemaSatisfies, LookupVersion, SchemaText, MoveAdmitted, HonestRun, PassAt, UniformVersions, ReallySatisfies,
         OutageSteps, OutageWorlds, GateOpen, InForce, PlainStart;
    ShippedStart();
    EditDuringOutageDeploysUnreadyVersion(SUPPORTED_VERSIONS, NewCluster(SchemaText('1', '8'), SchemaText('1', '4')),
                                          SchemaText('1', '8'), SchemaText('1', '4'), "1.31.0");
  }

  lemma ShippedStart()
    ensures MoveAdmitted(SUPPORTED_VERSIONS, "1.30.8", "1.31.0")
    ensures var main, visibility := SchemaText('1', '8'), SchemaText('1', '4');
            PlainStart(SUPPORTED_VERSIONS, NewCluster(main, visibility), main, visibility)
    ensures LookupVersion(SUPPORTED_VERSIONS, "1.31.0") == Some(V131)
    ensures !SchemaVersions.SchemaSatisfies(SchemaText('1', '8'), V131.minSchemaSQL)
  {
    hide SchemaVersions.SchemaSatisfies, LookupVersion, SchemaText, MoveAdmitted;
    ShippedRows();
    ShippedSchemas();
    SchemaOrder('1', '8', '1', '8');
    SchemaOrder('1', '4', '1', '3');
    SchemaOrder('1', '8', '1', '9');
  }
}
