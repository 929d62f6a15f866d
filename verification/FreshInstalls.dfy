/**
 What the schema gate in front of the services rests on.  A pass that cannot reach the
 stores leaves SchemaReady as it was, so the gate may open on an older reading; these
 lemmas say how old, and show what that means for an install whose version is edited
 during an outage.
 */
module FreshInstalls {
  import opened Wrappers
  import opened GoStrings
  import opened SchemaVersions
  import opened Versions
  import opened ClusterTypes
  import opened Persistence
  import PersistenceFacts
  import opened Upgrades
  import opened Controller
  import opened PassFacts
  import opened DatabaseRuns

  /** The pass applies service Deployments: it got to that stage with the schema condition true. */
  predicate GateOpen(matrix: Matrix, w: World, env: Env) {
    Assigns(matrix, w, env) && Mid(matrix, w, env).conditions.schemaReady
  }

  /** The reconcile at step `j` read every store at a schema its own spec's version accepts. */
  ghost predicate SchemaSeenAt(matrix: Matrix, w: World, step: Step) {
    step.ReconcileStep? && AllSeenReadyFor(matrix, w.spec, w.objects, step.env, w.spec.version)
  }

  /** The step wrote no schema condition: not a committed reconcile, or one that found a store unreachable. */
  predicate LeavesSchemaCondition(matrix: Matrix, w: World, step: Step) {
    step.ReconcileStep? ==> !Commits(matrix, w, step.env) || !Mid(matrix, w, step.env).conditions.reachable
  }

  ghost predicate RestsOn(matrix: Matrix, ws: seq<World>, steps: seq<Step>, j: nat, i: nat)
    requires |steps| < |ws| && i <= |steps|
  {
    && j < i && SchemaSeenAt(matrix, ws[j], steps[j]) && !LeavesSchemaCondition(matrix, ws[j], steps[j])
    && Mid(matrix, ws[j], steps[j].env).conditions.schemaReady
    && forall k :: j < k < i ==> LeavesSchemaCondition(matrix, ws[k], steps[k])
  }

  /** A persisted SchemaReady=True rests on the last committed reconcile that reached the stores. */
  lemma {:induction false} SchemaConditionRestsOnReading(matrix: Matrix, ws: seq<World>, steps: seq<Step>, i: nat)
    requires IsRun(matrix, ws, steps) && i < |ws|
    requires ws[i].status.conditions.schemaReady
    ensures exists j :: RestsOn(matrix, ws, steps, j, i)
  {
    assert i > 0;
    var w, step := ws[i - 1], steps[i - 1];
    assert ws[i] == Next(matrix, w, step);
    if step.ReconcileStep? && Commits(matrix, w, step.env) && Mid(matrix, w, step.env).conditions.reachable {
      assert ws[i].status == PassAt(matrix, w, step.env).status;
      hide IsRun, Next, PassAt, Mid, AllSeenReadyFor, SeenReachable, Upgraded, LeavesSchemaCondition;
      PassOutcome(matrix, w, step.env);
      MidIsFresh(matrix, w, step.env);
      assert RestsOn(matrix, ws, steps, i - 1, i);
    } else {
      assert w.status.conditions.schemaReady by {
        if step.ReconcileStep? && Commits(matrix, w, step.env) {
          assert ws[i].status == PassAt(matrix, w, step.env).status;
          hide IsRun, Next, PassAt, Mid, AllSeenReadyFor, SeenReachable, Upgraded;
          PassOutcome(matrix, w, step.env);
          MidIsFresh(matrix, w, step.env);
        } else {
          StatusKept(matrix, w, step);
        }
      }
      assert LeavesSchemaCondition(matrix, w, step);
      hide IsRun, Next, LeavesSchemaCondition, SchemaSeenAt;
      SchemaConditionRestsOnReading(matrix, ws, steps, i - 1);
      var j :| RestsOn(matrix, ws, steps, j, i - 1);
      assert RestsOn(matrix, ws, steps, j, i);
    }
  }

  /**
   Whenever a reconcile applies service Deployments, it read the schema itself, or it found
   the stores unreachable and the gate rests on the last committed reconcile that reached
   them.
   */
  lemma GateRestsOnReading(matrix: Matrix, ws: seq<World>, steps: seq<Step>, i: nat)
    requires IsRun(matrix, ws, steps) && i < |steps|
    requires steps[i].ReconcileStep? && GateOpen(matrix, ws[i], steps[i].env)
    ensures if Mid(matrix, ws[i], steps[i].env).conditions.reachable then SchemaSeenAt(matrix, ws[i], steps[i])
            else exists j :: RestsOn(matrix, ws, steps, j, i)
  {
    assert GateOpen(matrix, ws[i], steps[i].env) ==> Assigns(matrix, ws[i], steps[i].env);
    hide IsRun, Next, Mid, Assigns, AllSeenReadyFor, RestsOn;
    MidIsFresh(matrix, ws[i], steps[i].env);
    if !Mid(matrix, ws[i], steps[i].env).conditions.reachable {
      SchemaConditionRestsOnReading(matrix, ws, steps, i);
    }
  }

  /** The reading a pass's gate rests on: its own when it reached the stores, else that of the last committed one that did. */
  ghost predicate InForce(matrix: Matrix, ws: seq<World>, steps: seq<Step>, j: nat, i: nat)
    requires i < |steps| < |ws|
  {
    && steps[i].ReconcileStep?
    && if Mid(matrix, ws[i], steps[i].env).conditions.reachable then j == i else RestsOn(matrix, ws, steps, j, i)
  }

  /** Every open gate has exactly one reading in force, and that reading accepted the version its own spec asked for. */
  lemma OneReadingInForce(matrix: Matrix, ws: seq<World>, steps: seq<Step>, i: nat)
    requires IsRun(matrix, ws, steps) && i < |steps|
    requires steps[i].ReconcileStep? && GateOpen(matrix, ws[i], steps[i].env)
    ensures exists j: nat :: InForce(matrix, ws, steps, j, i)
    ensures forall j: nat, k: nat :: InForce(matrix, ws, steps, j, i) && InForce(matrix, ws, steps, k, i) ==> j == k
    ensures forall j: nat :: InForce(matrix, ws, steps, j, i) ==> j <= i && SchemaSeenAt(matrix, ws[j], steps[j])
  {
    hide SchemaSeenAt, Next, Mid, GateOpen, LeavesSchemaCondition;
    assert |ws| == |steps| + 1;
    hide IsRun;
    GateRestsOnReading(matrix, ws, steps, i);
    if Mid(matrix, ws[i], steps[i].env).conditions.reachable {
      assert InForce(matrix, ws, steps, i, i);
    } else {
      var j :| RestsOn(matrix, ws, steps, j, i);
      assert InForce(matrix, ws, steps, j, i);
    }
  }

  /** A step that writes no schema condition records no schema version either. */
  lemma LeavingKeepsRecorded(matrix: Matrix, w: World, step: Step)
    requires LeavesSchemaCondition(matrix, w, step)
    ensures Next(matrix, w, step).status.schemaVersions == w.status.schemaVersions
  {
    if step.ReconcileStep? && Commits(matrix, w, step.env) {
      assert Next(matrix, w, step).status == PassAt(matrix, w, step.env).status;
      hide Next, PassAt, Mid, Upgraded;
      PassOutcome(matrix, w, step.env);
      RecordedAreKept(matrix, w, step.env);
      ReadingRecorded(matrix, w, step.env, DefaultStore);
    } else {
      StatusKept(matrix, w, step);
    }
  }

  /** From the reading on, the persisted versions are those it recorded. */
  lemma {:induction false} RecordedSinceReading(matrix: Matrix, ws: seq<World>, steps: seq<Step>, j: nat, i: nat)
    requires IsRun(matrix, ws, steps) && j < i < |ws| && steps[j].ReconcileStep?
    requires Commits(matrix, ws[j], steps[j].env)
    requires forall k :: j < k < i ==> LeavesSchemaCondition(matrix, ws[k], steps[k])
    ensures ws[i].status.schemaVersions == Mid(matrix, ws[j], steps[j].env).schemaVersions
  {
    hide Next, Mid, LeavesSchemaCondition;
    assert |ws| == |steps| + 1;
    if j + 1 < i {
      assert ws[i] == Next(matrix, ws[i - 1], steps[i - 1]);
      hide IsRun;
      RecordedSinceReading(matrix, ws, steps, j, i - 1);
      LeavingKeepsRecorded(matrix, ws[i - 1], steps[i - 1]);
    } else {
      assert ws[i] == Next(matrix, ws[j], steps[j]);
      CommittedRecords(matrix, ws[j], steps[j].env);
    }
  }

  lemma CommittedRecords(matrix: Matrix, w: World, env: Env)
    requires Commits(matrix, w, env)
    ensures Next(matrix, w, ReconcileStep(env)).status.schemaVersions == Mid(matrix, w, env).schemaVersions
  {
    assert Next(matrix, w, ReconcileStep(env)).status == PassAt(matrix, w, env).status;
    hide Next, PassAt, Mid;
    RecordedAreKept(matrix, w, env);
  }

  /** The version recorded for the store as the pass's services stage finds it, read now or carried over. */
  function RecordedVersion(matrix: Matrix, w: World, env: Env, store: Store): Option<string> {
    var m := Mid(matrix, w, env).schemaVersions;
    if store in m then Some(m[store]) else None
  }

  /**
   Behind an open gate, the version recorded for a store is the one the reading in force took,
   and it was read from that pass's `ReadFrom`.
   */
  lemma ReadingInForceIsRecorded(matrix: Matrix, ws: seq<World>, steps: seq<Step>, j: nat, i: nat, store: Store)
    requires IsRun(matrix, ws, steps) && i < |steps|
    requires steps[i].ReconcileStep? && GateOpen(matrix, ws[i], steps[i].env) && InForce(matrix, ws, steps, j, i)
    ensures j <= i && steps[j].ReconcileStep?
    ensures RecordedVersion(matrix, ws[i], steps[i].env, store).Some?
    ensures var v := RecordedVersion(matrix, ws[i], steps[i].env, store).value;
            TrimSpace(v) != "" && Reads(ws[j].spec, ws[j].objects, steps[j].env, store, v)
  {
    hide Next, Mid, Reads, SchemaSatisfies, PassAt, AllSeenReadyFor, TrimSpace;
    OpenGateAssigns(matrix, ws[i], steps[i].env);
    assert |ws| == |steps| + 1;
    hide IsRun;
    ReadingRecorded(matrix, ws[i], steps[i].env, store);
    if Mid(matrix, ws[i], steps[i].env).conditions.reachable {
      SatisfyingIsNotBlank(matrix, ws[i], steps[i].env, store);
    } else {
      ReadingStays(matrix, ws, steps, j, i, store);
    }
  }

  lemma SatisfyingIsNotBlank(matrix: Matrix, w: World, env: Env, store: Store)
    requires Assigns(matrix, w, env)
    requires Mid(matrix, w, env).conditions.reachable && Mid(matrix, w, env).conditions.schemaReady
    ensures store in Mid(matrix, w, env).schemaVersions
    ensures TrimSpace(Mid(matrix, w, env).schemaVersions[store]) != ""
    ensures Reads(w.spec, w.objects, env, store, Mid(matrix, w, env).schemaVersions[store])
  {
    hide Mid, Reads, Compare, Assigns, TrimSpace;
    ReadingRecorded(matrix, w, env, store);
  }

  lemma ReadingStays(matrix: Matrix, ws: seq<World>, steps: seq<Step>, j: nat, i: nat, store: Store)
    requires IsRun(matrix, ws, steps) && i < |steps| && RestsOn(matrix, ws, steps, j, i)
    ensures steps[j].ReconcileStep? && store in ws[i].status.schemaVersions
    ensures var v := ws[i].status.schemaVersions[store];
            TrimSpace(v) != "" && Reads(ws[j].spec, ws[j].objects, steps[j].env, store, v)
  {
    hide Next, Mid, Reads, PassAt, AllSeenReadyFor, TrimSpace;
    assert |ws| == |steps| + 1;
    hide IsRun;
    RecordedSinceReading(matrix, ws, steps, j, i);
    PassOutcome(matrix, ws[j], steps[j].env);
    SatisfyingIsNotBlank(matrix, ws[j], steps[j].env, store);
  }

  /**
   What the gate in front of the services guarantees.  Behind an open gate, whatever the
   databases hold as long as they bear out the reading it rests on, the store the spec names
   meets the spec's version if and only if that reading was of the database the spec names now
   and the version recorded for it is one the spec's version accepts.  Both are settled before
   the pass: the recorded version is in the status, and the database was in the spec, or in the
   answering pod, when it was read.
   */
  lemma GateGuaranteesExactly(matrix: Matrix, ws: seq<World>, steps: seq<Step>, j: nat, i: nat, store: Store)
    requires IsRun(matrix, ws, steps) && i < |steps|
    requires steps[i].ReconcileStep? && GateOpen(matrix, ws[i], steps[i].env) && InForce(matrix, ws, steps, j, i)
    ensures j <= i && RecordedVersion(matrix, ws[i], steps[i].env, store).Some?
    ensures Guarantees(matrix, ReadFrom(ws[j], store), RecordedVersion(matrix, ws[i], steps[i].env, store).value, ws[i].spec, store)
       <==> Serves(matrix, ReadFrom(ws[j], store), RecordedVersion(matrix, ws[i], steps[i].env, store).value, ws[i].spec, store)
  {
    assert |ws| == |steps| + 1;
    hide Next, Mid, Reads, PassAt, IsRun, GateOpen, InForce, RecordedVersion, Guarantees, Serves, TrimSpace;
    ReadingInForceIsRecorded(matrix, ws, steps, j, i, store);
    GuaranteesExactly(matrix, ReadFrom(ws[j], store), RecordedVersion(matrix, ws[i], steps[i].env, store).value, ws[i].spec, store);
  }

  /**
   In an honest run, a fresh install never deploys ahead of its schema: it hands the spec's
   version to every enabled service, and every store that the reading in force serves really
   holds the schema that version needs.  A pass that reached its stores is served by its own
   reading, unless an inspector's answer is for another database.
   */
  lemma FreshInstallNeverPrecedesSchema(matrix: Matrix, ws: seq<World>, steps: seq<Step>, j: nat, i: nat, store: Store)
    requires HonestRun(matrix, ws, steps) && i < |steps|
    requires steps[i].ReconcileStep? && GateOpen(matrix, ws[i], steps[i].env) && InForce(matrix, ws, steps, j, i)
    requires ws[i].status.version == ""
    ensures PassAt(matrix, ws[i], steps[i].env).versions == Some(UniformVersions(ws[i].spec, ws[i].spec.version))
    ensures j <= i && RecordedVersion(matrix, ws[i], steps[i].env, store).Some?
    ensures Serves(matrix, ReadFrom(ws[j], store), RecordedVersion(matrix, ws[i], steps[i].env, store).value, ws[i].spec, store) ==>
              ReallySatisfies(matrix, ws[i].databases, ws[i].spec, store, ws[i].spec.version)
    ensures Mid(matrix, ws[i], steps[i].env).conditions.reachable && ws[i].spec.StoreSpecOf(store).kind != Elasticsearch
            && AnswersForItself(ws[i], store) ==>
              Serves(matrix, ReadFrom(ws[j], store), RecordedVersion(matrix, ws[i], steps[i].env, store).value, ws[i].spec, store)
  {
    hide Next, Mid, Reads, PassAt, Guarantees, Serves, TrimSpace, Supported, ReadsHonest, ReallySatisfies, GateOpen, RestsOn,
         Backs, ReadFrom, UniformVersions;
    OpenGateAssigns(matrix, ws[i], steps[i].env);
    FreshAssignment(matrix, ws[i], steps[i].env);
    assert IsRun(matrix, ws, steps) && |ws| == |steps| + 1;
    hide HonestRun, IsRun;
    ReadingInForceIsRecorded(matrix, ws, steps, j, i, store);
    var v := RecordedVersion(matrix, ws[i], steps[i].env, store).value;
    HonestStep(matrix, ws, steps, j);
    AlwaysSupported(matrix, ws, steps, j);
    ReadIsHeld(ws[j], steps[j].env, store, v);
    BackingLasts(matrix, ws, steps, j, i, ReadFrom(ws[j], store), v);
    GuaranteesExactly(matrix, ReadFrom(ws[j], store), v, ws[i].spec, store);
    if Serves(matrix, ReadFrom(ws[j], store), v, ws[i].spec, store) {
      GuaranteeApplies(matrix, ws[i].databases, ReadFrom(ws[j], store), v, ws[i].spec, store);
    }
    if Mid(matrix, ws[i], steps[i].env).conditions.reachable && ws[i].spec.StoreSpecOf(store).kind != Elasticsearch {
      OpenGateIsReady(matrix, ws[i], steps[i].env);
      SchemaReadyGuaranteesExactly(matrix, ws[i], steps[i].env, store);
    }
  }

  lemma GuaranteeApplies(matrix: Matrix, databases: Databases, read: Option<string>, v: string, spec: Spec, store: Store)
    requires Guarantees(matrix, read, v, spec, store) && Backs(databases, read, v)
    ensures ReallySatisfies(matrix, databases, spec, store, spec.version)
  {
    hide Backs, ReallySatisfies;
  }

  lemma OpenGateIsReady(matrix: Matrix, w: World, env: Env)
    requires GateOpen(matrix, w, env)
    ensures Mid(matrix, w, env).conditions.schemaReady
  {
    hide PassAt, Mid;
  }

  lemma FreshAssignment(matrix: Matrix, w: World, env: Env)
    requires Assigns(matrix, w, env) && w.status.version == ""
    ensures PassAt(matrix, w, env).versions == Some(UniformVersions(w.spec, w.spec.version))
  {
    hide PassAt, Mid, ReconcilePersistence, ReconcileServices, ComputeReadyAndPhase, UniformVersions, AdvanceUpgrade;
    AssigningPass(matrix, w, env);
    MidKeeps(matrix, w, env);
  }

  // ----- the proviso is needed -----

  const NO_FAILURES := Api(false, false, false, false)

  /** A directly connected store that answers and reports schema version `v`. */
  function Answering(v: string): StoreEnv {
    StoreEnv(ProbeOk, Version(v), false, Version(v), NO_FAILURES, false, NO_FAILURES, NO_FAILURES, NO_FAILURES)
  }

  const SILENT := StoreEnv(ProbeFailed, ReadFailed, false, ReadFailed, NO_FAILURES, false, NO_FAILURES, NO_FAILURES, NO_FAILURES)

  /** A reconcile in which nothing fails. */
  function Calm(main: string, visibility: string): Env {
    Env(false, false, Answering(main), Answering(visibility), false, true, false, false, false, None, false, false, false, Committed)
  }

  /** A reconcile that cannot resolve its stores, and in which nothing else fails. */
  const OUTAGE := Env(false, true, SILENT, SILENT, false, true, false, false, false, None, false, false, false, Committed)

  /** The plainest cluster: direct SQL stores, four services, nothing overridden. */
  function Plain(version: string): Spec {
    Spec(version, "", false, false, false, StoreSpec(Sql, "main"), StoreSpec(Sql, "visibility"), map[], NO_OVERRIDE, map[], None)
  }

  const NO_OBJECTS := Objects(map[], map[], map[], map[])

  /** A new cluster whose stores already hold the schema: the first pass deploys, but is not Ready yet. */
  lemma FirstPass(matrix: Matrix, w: World, main: string, visibility: string)
    requires LookupVersion(matrix, w.spec.version).Some?
    requires w.spec == Plain(w.spec.version) && w.status == NEW_STATUS && w.objects == NO_OBJECTS
    requires var info := LookupVersion(matrix, w.spec.version).value;
             SchemaSatisfies(main, info.minSchemaSQL) && SchemaSatisfies(visibility, info.minSchemaSQLVisibility)
    ensures var next := Next(matrix, w, ReconcileStep(Calm(main, visibility)));
            next.status.version == "" && next.status.conditions.schemaReady && next.spec == w.spec
  {
    var env := Calm(main, visibility);
    var p := ReconcilePersistence(matrix, w.spec, w.status, w.objects, env);
    assert !p.failed && p.status.conditions.schemaReady && p.status.version == "" && p.status.upgrade == None
        && p.objects == w.objects by {
      PlainPersistence(matrix, w, main, visibility);
    }
    NothingAvailableYet(matrix, w, env);
  }

  lemma PlainPersistence(matrix: Matrix, w: World, main: string, visibility: string)
    requires LookupVersion(matrix, w.spec.version).Some?
    requires w.spec == Plain(w.spec.version) && w.status == NEW_STATUS && w.objects == NO_OBJECTS
    requires var info := LookupVersion(matrix, w.spec.version).value;
             SchemaSatisfies(main, info.minSchemaSQL) && SchemaSatisfies(visibility, info.minSchemaSQLVisibility)
    ensures var p := ReconcilePersistence(matrix, w.spec, w.status, w.objects, Calm(main, visibility));
            && !p.failed && p.status.conditions.schemaReady && p.status.version == "" && p.status.upgrade == None
            && p.objects == w.objects
  {
    var env := Calm(main, visibility);
    assert TARGETS[0] == DefaultStore && TARGETS[1..] == [VisibilityStore];
    assert [VisibilityStore][1..] == [];
    var info := LookupVersion(matrix, w.spec.version).value;
    hide LookupVersion, SchemaSatisfies;
    assert ProbeAll(w.spec, w.objects, env, [VisibilityStore], map[]) == Probed(true, map[], w.objects);
    assert ProbeAll(w.spec, w.objects, env, TARGETS, map[]) == Probed(true, map[], w.objects);
    var reached := SetReachable(w.status, true);
    var first := Record(reached, DefaultStore, Some(main));
    var second := Record(first, VisibilityStore, Some(visibility));
    assert SchemaAll(info, w.spec, second, w.objects, env, [], map[], false) == Stage(SetSchemaReady(second, true), w.objects, false);
    assert SchemaAll(info, w.spec, first, w.objects, env, [VisibilityStore], map[], false)
        == Stage(SetSchemaReady(second, true), w.objects, false);
    assert SchemaAll(info, w.spec, reached, w.objects, env, TARGETS, map[], false)
        == Stage(SetSchemaReady(second, true), w.objects, false);
  }

  /** New Deployments have no ready replica, so the pass that creates them does not record a version. */
  lemma NothingAvailableYet(matrix: Matrix, w: World, env: Env)
    requires w.objects.deployments == map[] && w.status.version == "" && !w.spec.mtls
    requires !env.renderFails && env.applied.None? && !env.rollupGetFails && !env.uiFails && !env.monitoringFails
    requires env.write == Committed
    requires var p := ReconcilePersistence(matrix, w.spec, w.status, w.objects, env);
             !p.failed && p.status.conditions.schemaReady && p.status.version == ""
    ensures var next := Next(matrix, w, ReconcileStep(env));
            next.status.version == "" && next.status.conditions.schemaReady && next.spec == w.spec
  {
    hide ReconcilePersistence, ServerImage, Rollup;
    var p := ReconcilePersistence(matrix, w.spec, w.status, w.objects, env);
    PersistenceFacts.PersistenceIsFresh(matrix, w.spec, w.status, w.objects, env);
    var u := ReconcileUpgrade(w.spec, p.status, p.objects, env, w.now);
    assert u.status == p.status.(upgrade := None) && u.versions == UniformVersions(w.spec, w.spec.version);
    var services := EnabledServices(w.spec);
    AppliedExist(w.spec, map[], u.versions, services);
    NewHaveNoReplicas(w.spec, u.versions, services);
    var deployments := ApplyServices(w.spec, map[], u.versions, services);
    assert services[0] == Frontend && Frontend in services;
    assert !AllAvailable(deployments, services);
    hide ApplyServices, Rollup, ReconcileUpgrade, AllAvailable, EnabledServices;
  }

  lemma {:induction false} NewHaveNoReplicas(spec: Spec, versions: Assignment, services: seq<Service>)
    ensures forall s :: s in ApplyServices(spec, map[], versions, services) ==>
              ApplyServices(spec, map[], versions, services)[s].readyReplicas == 0
    decreases |services|
  {
    if services != [] { NewHaveNoReplicas(spec, versions, services[..|services| - 1]); }
  }

  /** Reconcile, edit, and reconcile again during an outage. */
  function OutageSteps(main: string, visibility: string, edited: Spec): seq<Step> {
    [ReconcileStep(Calm(main, visibility)), EditSpec(edited), ReconcileStep(OUTAGE)]
  }

  function OutageWorlds(matrix: Matrix, w: World, main: string, visibility: string, edited: Spec): seq<World> {
    var w1 := Next(matrix, w, ReconcileStep(Calm(main, visibility)));
    var w2 := Next(matrix, w1, EditSpec(edited));
    [w, w1, w2, Next(matrix, w2, ReconcileStep(OUTAGE))]
  }

  /** A new plain cluster whose databases hold what its version asks. */
  ghost predicate PlainStart(matrix: Matrix, w: World, main: string, visibility: string) {
    && LookupVersion(matrix, w.spec.version).Some?
    && w.spec == Plain(w.spec.version) && w.status == NEW_STATUS && w.objects == NO_OBJECTS
    && w.databases == map["main" := main, "visibility" := visibility]
    && var info := LookupVersion(matrix, w.spec.version).value;
       SchemaSatisfies(main, info.minSchemaSQL) && SchemaSatisfies(visibility, info.minSchemaSQLVisibility)
  }

  /** Any edit during the outage is deployed at once, from the gate the first pass left open. */
  lemma EditDuringOutageIsDeployed(matrix: Matrix, w: World, main: string, visibility: string, edited: Spec)
    requires PlainStart(matrix, w, main, visibility) && !edited.workloadIdentity && !edited.mtls
    ensures var steps := OutageSteps(main, visibility, edited);
            var ws := OutageWorlds(matrix, w, main, visibility, edited);
            && HonestRun(matrix, ws, steps)
            && ws[2].spec == edited && ws[2].status.version == "" && ws[2].databases == w.databases
            && GateOpen(matrix, ws[2], OUTAGE) && InForce(matrix, ws, steps, 0, 2)
            && PassAt(matrix, ws[2], OUTAGE).versions == Some(UniformVersions(edited, edited.version))
  {
    hide PassAt, Mid, UniformVersions, Next, SchemaSatisfies, LookupVersion, ReadsHonest, IsRun, HonestRun, Calm, GateOpen, RestsOn;
    var env := Calm(main, visibility);
    FirstPass(matrix, w, main, visibility);
    var w1 := Next(matrix, w, ReconcileStep(env));
    var w2 := Next(matrix, w1, EditSpec(edited));
    DatabasesKept(matrix, w, env);
    EditKeeps(matrix, w1, edited);
    CalmIsHonest(w, main, visibility);
    SilenceIsHonest(w2);
    ThreeHonestSteps(matrix, w, env, edited, OUTAGE);
    OutageKeepsGate(matrix, w2, OUTAGE);
    OpenGateAssigns(matrix, w2, OUTAGE);
    FreshAssignment(matrix, w2, OUTAGE);
    var ws, steps := OutageWorlds(matrix, w, main, visibility, edited), OutageSteps(main, visibility, edited);
    assert IsRun(matrix, ws, steps) by { HonestIsRun(matrix, ws, steps); }
    SchemaConditionRestsOnReading(matrix, ws, steps, 2);
    var j :| RestsOn(matrix, ws, steps, j, 2);
    RestsOnReconcile(matrix, ws, steps, j, 2);
    assert steps[1].EditSpec?;
  }

  lemma HonestIsRun(matrix: Matrix, ws: seq<World>, steps: seq<Step>)
    requires HonestRun(matrix, ws, steps)
    ensures IsRun(matrix, ws, steps)
  {
    hide IsRun;
  }

  lemma RestsOnReconcile(matrix: Matrix, ws: seq<World>, steps: seq<Step>, j: nat, i: nat)
    requires |steps| < |ws| && i <= |steps| && RestsOn(matrix, ws, steps, j, i)
    ensures j < i && steps[j].ReconcileStep?
  {
    hide Mid, AllSeenReadyFor;
  }

  /**
   The version condition of `GateGuaranteesExactly` is needed: edit the version during the
   outage.  In this honest run the edited version goes out to every service although the main
   database does not hold the schema it needs.
   */
  lemma EditDuringOutageDeploysUnreadyVersion(matrix: Matrix, w: World, main: string, visibility: string, edited: string)
    requires PlainStart(matrix, w, main, visibility) && LookupVersion(matrix, edited).Some?
    requires !SchemaSatisfies(main, LookupVersion(matrix, edited).value.minSchemaSQL)
    ensures var steps := OutageSteps(main, visibility, Plain(edited));
            var ws := OutageWorlds(matrix, w, main, visibility, Plain(edited));
            && HonestRun(matrix, ws, steps)
            && GateOpen(matrix, ws[2], OUTAGE) && InForce(matrix, ws, steps, 0, 2)
            && PassAt(matrix, ws[2], OUTAGE).versions == Some(UniformVersions(Plain(edited), edited))
            && !ReallySatisfies(matrix, ws[2].databases, ws[2].spec, DefaultStore, edited)
  {
    hide PassAt, UniformVersions, Next, SchemaSatisfies, LookupVersion, HonestRun, GateOpen, InForce, OutageWorlds, OutageSteps;
    EditDuringOutageIsDeployed(matrix, w, main, visibility, Plain(edited));
    assert w.databases["main"] == main by { assert "main"[0] != "visibility"[0]; }
  }

  /** The plain cluster with its main store pointed at another database. */
  function Elsewhere(version: string, database: string): Spec {
    Plain(version).(defaultStore := StoreSpec(Sql, database))
  }

  /**
   So is the database condition: point the main store at an empty database during the outage, and keep the
   version.  Admission allows the edit, since it changes no driver.  The version goes out to
   every service although the database the spec names holds no schema at all.
   */
  lemma StoreEditDuringOutageDeploysOnEmptyDatabase(matrix: Matrix, w: World, main: string, visibility: string, database: string)
    requires PlainStart(matrix, w, main, visibility) && database !in w.databases
    ensures var edited := Elsewhere(w.spec.version, database);
            var steps := OutageSteps(main, visibility, edited);
            var ws := OutageWorlds(matrix, w, main, visibility, edited);
            && (edited.defaultStore.kind == Sql <==> w.spec.defaultStore.kind == Sql) && edited.version == w.spec.version
            && HonestRun(matrix, ws, steps)
            && GateOpen(matrix, ws[2], OUTAGE) && InForce(matrix, ws, steps, 0, 2)
            && PassAt(matrix, ws[2], OUTAGE).versions == Some(UniformVersions(edited, w.spec.version))
            && !ReallySatisfies(matrix, ws[2].databases, ws[2].spec, DefaultStore, w.spec.version)
  {
    hide PassAt, UniformVersions, Next, SchemaSatisfies, LookupVersion, HonestRun, GateOpen, InForce, OutageWorlds, OutageSteps;
    EditDuringOutageIsDeployed(matrix, w, main, visibility, Elsewhere(w.spec.version, database));
  }

  lemma OpenGateAssigns(matrix: Matrix, w: World, env: Env)
    requires GateOpen(matrix, w, env)
    ensures Assigns(matrix, w, env)
  {
    hide PassAt, Mid;
  }

  lemma DatabasesKept(matrix: Matrix, w: World, env: Env)
    ensures Next(matrix, w, ReconcileStep(env)).databases == w.databases
  {
    hide PassAt;
  }

  lemma EditKeeps(matrix: Matrix, w: World, spec: Spec)
    ensures Next(matrix, w, EditSpec(spec)) == w.(now := w.now + 1, spec := spec)
  {
    hide PassAt;
  }

  /** Two honest reconciles with an edit between them, from a new resource, are an honest run. */
  lemma ThreeHonestSteps(matrix: Matrix, w: World, first: Env, spec: Spec, second: Env)
    requires w.status == NEW_STATUS && w.objects == NO_OBJECTS && ReadsHonest(w, first)
    requires ReadsHonest(Next(matrix, Next(matrix, w, ReconcileStep(first)), EditSpec(spec)), second)
    ensures var steps := [ReconcileStep(first), EditSpec(spec), ReconcileStep(second)];
            var w1 := Next(matrix, w, steps[0]);
            var w2 := Next(matrix, w1, steps[1]);
            HonestRun(matrix, [w, w1, w2, Next(matrix, w2, steps[2])], steps)
  {
    hide Next, ReadsHonest;
    var steps := [ReconcileStep(first), EditSpec(spec), ReconcileStep(second)];
    assert steps[0] == ReconcileStep(first) && steps[1] == EditSpec(spec) && steps[2] == ReconcileStep(second);
  }

  lemma CalmIsHonest(w: World, main: string, visibility: string)
    requires w.spec == Plain(w.spec.version) && w.databases == map["main" := main, "visibility" := visibility]
    ensures ReadsHonest(w, Calm(main, visibility))
  {
    assert "main"[0] != "visibility"[0];
  }

  lemma SilenceIsHonest(w: World)
    ensures ReadsHonest(w, OUTAGE)
  {
  }

  lemma OutageKeepsGate(matrix: Matrix, w: World, env: Env)
    requires env.targetsFail && !w.spec.workloadIdentity && !w.spec.mtls && w.status.conditions.schemaReady
    ensures GateOpen(matrix, w, env) && !Mid(matrix, w, env).conditions.reachable
  {
    assert ReconcilePersistence(matrix, w.spec, w.status, w.objects, env) == Stage(SetReachable(w.status, false), w.objects, false);
    hide ReconcilePersistence, ReconcileUpgrade, ReconcileServices, ComputeReadyAndPhase;
  }
}
