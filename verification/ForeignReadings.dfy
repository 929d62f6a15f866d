/**
 Honest runs in which the schema the controller relies on was read from another database than
 the one the spec names: an inspector's answer that outlives an edit of its store, and an
 upgrade that goes on during an outage after such an edit.
 */
module ForeignReadings {
  import opened Wrappers
  import opened GoStrings
  import opened SchemaVersions
  import opened Versions
  import opened ClusterTypes
  import opened Persistence
  import opened Upgrades
  import opened Controller
  import opened PassFacts
  import opened DeploymentFacts
  import opened UpgradeProgress
  import opened DatabaseRuns
  import opened FreshInstalls
  import opened Lifecycles
  import opened Mishaps

  // ----- an answer that outlives an edit -----

  /** The plain cluster, with its stores inspected by Jobs. */
  function Inspected(version: string, database: string): Spec {
    Elsewhere(version, database).(workloadIdentity := true)
  }

  /** An inspector Job that has finished, and its pod, which reached the database and reported `v`. */
  function FinishedJob(database: string): Job {
    Job([Container(INSPECT_CONTAINER, "operator")], [JobCondition(JobComplete, true)], 0, false, database)
  }

  function AnsweredPod(database: string, v: string): Pod {
    Pod(database, [ContainerStatus(INSPECT_CONTAINER, Some(Answer(InspectResult(true, v))))])
  }

  function AnsweredObjects(main: string, visibility: string): Objects {
    Objects(map[], map[],
            map[DefaultStore := FinishedJob("main"), VisibilityStore := FinishedJob("visibility")],
            map[DefaultStore := [AnsweredPod("main", main)], VisibilityStore := [AnsweredPod("visibility", visibility)]])
  }

  /** A reconcile in which nothing fails; what a direct connection would report is not asked. */
  const CALM_INSPECTED := OUTAGE.(targetsFail := false)

  /** A new cluster whose inspectors have answered for the databases its spec names. */
  ghost predicate AnsweredStart(matrix: Matrix, w: World, main: string, visibility: string) {
    && LookupVersion(matrix, w.spec.version).Some?
    && w.spec == Inspected(w.spec.version, "main") && w.status == NEW_STATUS && w.objects == AnsweredObjects(main, visibility)
    && w.databases == map["main" := main, "visibility" := visibility]
    && var info := LookupVersion(matrix, w.spec.version).value;
       SchemaSatisfies(main, info.minSchemaSQL) && SchemaSatisfies(visibility, info.minSchemaSQLVisibility)
  }

  lemma AnsweredMessages(main: string, visibility: string)
    ensures var o := AnsweredObjects(main, visibility);
            && FirstMessage(o.PodsOf(DefaultStore)) == Some(Answer(InspectResult(true, main)))
            && FirstMessage(o.PodsOf(VisibilityStore)) == Some(Answer(InspectResult(true, visibility)))
            && AnsweringPod(o.PodsOf(DefaultStore)) == Some(AnsweredPod("main", main))
  {
    assert [AnsweredPod("main", main)][0] == AnsweredPod("main", main);
    assert [AnsweredPod("visibility", visibility)][0] == AnsweredPod("visibility", visibility);
  }

  lemma AnsweredIsHealthy(matrix: Matrix, w: World, main: string, visibility: string, database: string)
    requires LookupVersion(matrix, w.spec.version).Some?
    requires w.spec == Inspected(w.spec.version, database) && w.objects == AnsweredObjects(main, visibility)
    requires var info := LookupVersion(matrix, w.spec.version).value;
             SchemaSatisfies(main, info.minSchemaSQL) && SchemaSatisfies(visibility, info.minSchemaSQLVisibility)
    ensures Healthy(matrix, w, CALM_INSPECTED)
  {
    hide SchemaSatisfies, LookupVersion, FirstMessage;
    AnsweredMessages(main, visibility);
    assert Satisfied(matrix, w.spec, DefaultStore, main) && Satisfied(matrix, w.spec, VisibilityStore, visibility);
  }

  lemma AnsweredIsSupported(w: World, main: string, visibility: string)
    requires w.objects == AnsweredObjects(main, visibility)
    requires w.databases == map["main" := main, "visibility" := visibility]
    ensures Supported(w)
  {
    assert "main"[0] != "visibility"[0];
    CompareIsTotalPreorder(main, main, main);
    CompareIsTotalPreorder(visibility, visibility, visibility);
    hide Compare, TrimSpace;
    forall store, pod | pod in w.objects.PodsOf(store) ensures PodSupported(w.databases, pod) {
      assert pod in {AnsweredPod("main", main), AnsweredPod("visibility", visibility)};
      assert Reported(AnsweredPod("main", main)) == Some(main);
      assert Reported(AnsweredPod("visibility", visibility)) == Some(visibility);
    }
  }

  /**
   Point an inspected store at another database, here one that does not exist yet, and
   reconcile once.  In this honest run the old answer still counts: the pass commits with the
   stores reachable and the schema ready, although the database the spec names holds nothing.
   */
  lemma OldAnswerCountsForNewDatabase(matrix: Matrix, w: World, main: string, visibility: string, database: string)
    requires AnsweredStart(matrix, w, main, visibility) && database !in w.databases
    ensures var edit := EditSpec(Inspected(w.spec.version, database));
            var steps := [edit, ReconcileStep(CALM_INSPECTED)];
            var w1 := Next(matrix, w, edit);
            var w2 := Next(matrix, w1, ReconcileStep(CALM_INSPECTED));
            && HonestRun(matrix, [w, w1, w2], steps)
            && Commits(matrix, w1, CALM_INSPECTED)
            && w2.status.conditions.reachable && w2.status.conditions.schemaReady
            && !AnswersForItself(w1, DefaultStore)
            && !ReallySatisfies(matrix, w2.databases, w2.spec, DefaultStore, w2.spec.version)
  {
    hide Next, PassAt, Mid, LookupVersion, SchemaSatisfies, Healthy, Supported, ReadsHonest, Commits, AnsweringPod, ReconcileUpgrade;
    var edited := Inspected(w.spec.version, database);
    var w1 := Next(matrix, w, EditSpec(edited));
    EditKeeps(matrix, w, edited);
    AnsweredIsHealthy(matrix, w1, main, visibility, database);
    HealthyPass(matrix, w1, CALM_INSPECTED);
    CommittedConditions(matrix, w1, CALM_INSPECTED);
    NextFrame(matrix, w1, CALM_INSPECTED);
    DatabasesKept(matrix, w1, CALM_INSPECTED);
    AnsweredIsSupported(w, main, visibility);
    UnaskedIsHonest(w1);
    TwoHonestSteps(matrix, w, EditSpec(edited), ReconcileStep(CALM_INSPECTED));
    AnsweredMessages(main, visibility);
    assert "main" in w.databases;
  }

  lemma CommittedConditions(matrix: Matrix, w: World, env: Env)
    requires Commits(matrix, w, env)
    ensures var next := Next(matrix, w, ReconcileStep(env)).status.conditions;
            && next.reachable == Mid(matrix, w, env).conditions.reachable
            && next.schemaReady == Mid(matrix, w, env).conditions.schemaReady
  {
    assert Next(matrix, w, ReconcileStep(env)).status == PassAt(matrix, w, env).status;
    hide Next, PassAt, Mid, Upgraded;
    PassOutcome(matrix, w, env);
  }

  lemma UnaskedIsHonest(w: World)
    ensures ReadsHonest(w, CALM_INSPECTED)
  {
  }

  lemma TwoHonestSteps(matrix: Matrix, w: World, a: Step, b: Step)
    requires w.status == NEW_STATUS && Supported(w) && StepHonest(w, a) && StepHonest(Next(matrix, w, a), b)
    ensures var w1 := Next(matrix, w, a);
            HonestRun(matrix, [w, w1, Next(matrix, w1, b)], [a, b])
  {
    hide Next, StepHonest, Supported;
    var steps := [a, b];
    assert steps[0] == a && steps[1] == b;
  }

  // ----- honest lives -----

  /** Every step is honest in the world it is taken in. */
  ghost predicate HonestSteps(matrix: Matrix, w: World, steps: seq<Step>)
    decreases |steps|
  {
    steps == [] || (StepHonest(w, steps[0]) && HonestSteps(matrix, Next(matrix, w, steps[0]), steps[1..]))
  }

  lemma {:induction false} HonestUnfold(matrix: Matrix, w: World, steps: seq<Step>)
    requires HonestSteps(matrix, w, steps)
    ensures forall i :: 0 <= i < |steps| ==> StepHonest(Unfold(matrix, w, steps)[i], steps[i])
    decreases |steps|
  {
    hide Next, StepHonest;
    if steps != [] {
      var next := Next(matrix, w, steps[0]);
      HonestUnfold(matrix, next, steps[1..]);
      forall i | 0 <= i < |steps| ensures StepHonest(Unfold(matrix, w, steps)[i], steps[i]) {
        if i > 0 { assert Unfold(matrix, w, steps)[i] == Unfold(matrix, next, steps[1..])[i - 1] && steps[i] == steps[1..][i - 1]; }
      }
    }
  }

  lemma {:induction false} HonestConcat(matrix: Matrix, w: World, a: seq<Step>, b: seq<Step>)
    requires HonestSteps(matrix, w, a) && HonestSteps(matrix, Outcome(matrix, w, a), b)
    ensures HonestSteps(matrix, w, a + b)
    decreases |a|
  {
    hide Next, StepHonest;
    if a == [] {
      assert a + b == b;
    } else {
      assert (a + b)[0] == a[0] && (a + b)[1..] == a[1..] + b;
      HonestConcat(matrix, Next(matrix, w, a[0]), a[1..], b);
    }
  }

  lemma HonestOne(matrix: Matrix, w: World, step: Step)
    requires StepHonest(w, step)
    ensures HonestSteps(matrix, w, [step])
  {
    hide Next, StepHonest;
    assert [step][1..] == [];
  }

  /** The two worlds agree on what direct reads are checked against. */
  predicate SameStores(a: World, b: World) {
    a.databases == b.databases && a.spec.defaultStore == b.spec.defaultStore && a.spec.visibilityStore == b.spec.visibilityStore
  }

  lemma HonestElsewhere(a: World, b: World, env: Env)
    requires SameStores(a, b) && ReadsHonest(a, env)
    ensures ReadsHonest(b, env)
  {
    hide Truthful;
    assert forall store: Store :: a.spec.StoreSpecOf(store) == b.spec.StoreSpecOf(store);
  }

  lemma CatchUpIsHonest(matrix: Matrix, w: World)
    ensures StepHonest(w, CatchUp(w)) && SameStores(w, Next(matrix, w, CatchUp(w)))
  {
    hide Compare, TrimSpace;
    forall db | db in w.databases && TrimSpace(w.databases[db]) != "" ensures Holds(w.databases, db, w.databases[db]) {
      CompareIsTotalPreorder(w.databases[db], w.databases[db], w.databases[db]);
    }
    assert forall store :: CatchUp(w).objects.PodsOf(store) == w.objects.PodsOf(store);
  }

  lemma PassKeepsStores(matrix: Matrix, w: World, env: Env)
    ensures SameStores(w, Next(matrix, w, ReconcileStep(env)))
  {
    hide PassAt;
  }

  lemma {:induction false} RoundsAreHonest(matrix: Matrix, w: World, env: Env, n: nat)
    requires ReadsHonest(w, env)
    ensures HonestSteps(matrix, w, Rounds(matrix, w, env, n)) && SameStores(w, Outcome(matrix, w, Rounds(matrix, w, env, n)))
    decreases n
  {
    hide Next, StepHonest, ReadsHonest, CatchUp;
    if n > 0 {
      var c, r := CatchUp(w), ReconcileStep(env);
      var caught := Next(matrix, w, c);
      var next := Next(matrix, caught, r);
      CatchUpIsHonest(matrix, w);
      HonestElsewhere(w, caught, env);
      PassIsHonest(caught, env);
      PassKeepsStores(matrix, caught, env);
      HonestElsewhere(caught, next, env);
      RoundsAreHonest(matrix, next, env, n - 1);
      var rest := Rounds(matrix, next, env, n - 1);
      assert ([c, r] + rest)[0] == c && ([c, r] + rest)[1..] == [r] + rest && ([r] + rest)[1..] == rest;
      OneThen(matrix, caught, r, rest);
      OneThen(matrix, w, c, [r] + rest);
      assert [c] + ([r] + rest) == [c, r] + rest;
    }
  }

  lemma PassIsHonest(w: World, env: Env)
    requires ReadsHonest(w, env)
    ensures StepHonest(w, ReconcileStep(env))
  {
    hide ReadsHonest;
  }

  /** A pass and rounds after it are honest. */
  lemma PassAndRoundsAreHonest(matrix: Matrix, w: World, env: Env, n: nat)
    requires ReadsHonest(w, env)
    ensures var steps := [ReconcileStep(env)] + Rounds(matrix, Next(matrix, w, ReconcileStep(env)), env, n);
            HonestSteps(matrix, w, steps) && SameStores(w, Outcome(matrix, w, steps))
  {
    hide Next, StepHonest, ReadsHonest, HonestSteps, Rounds, Outcome;
    var r := ReconcileStep(env);
    var next := Next(matrix, w, r);
    PassIsHonest(w, env);
    PassKeepsStores(matrix, w, env);
    HonestElsewhere(w, next, env);
    RoundsAreHonest(matrix, next, env, n);
    HonestOne(matrix, w, r);
    OutcomeOfOne(matrix, w, r);
    HonestConcat(matrix, w, [r], Rounds(matrix, next, env, n));
    OneThen(matrix, w, r, Rounds(matrix, next, env, n));
  }

  lemma OutcomeOfOne(matrix: Matrix, w: World, step: Step)
    ensures Outcome(matrix, w, [step]) == Next(matrix, w, step)
  {
    hide Next, Unfold, Outcome;
    OneThen(matrix, w, step, []);
    assert [step] + [] == [step];
    OutcomeOfNone(matrix, Next(matrix, w, step));
  }

  /** The life of `StartedUpgrade` is honest when its direct reads are. */
  lemma StartedIsHonest(matrix: Matrix, w: World, first: Env, second: Env, spec: Spec, n: nat)
    requires Promising(matrix, w, first, second, spec) && ReadsHonest(w, first) && ReadsHonest(w, second)
    ensures var steps := StartedSteps(matrix, w, first, second, spec, n);
            HonestSteps(matrix, w, steps) && SameStores(w, Outcome(matrix, w, steps))
  {
    hide Next, Promising, HonestSteps, Outcome, ReadsHonest, Rounds, StepHonest;
    PromisedScale(matrix, w, first, second, spec);
    var install, edit := InstallSteps(matrix, w, first), EditSpec(spec);
    PassAndRoundsAreHonest(matrix, w, first, 1);
    var installed := Outcome(matrix, w, install);
    EditIsHonest(installed, spec);
    HonestOne(matrix, installed, edit);
    HonestConcat(matrix, w, install, [edit]);
    OutcomeOfTwo(matrix, w, install, [edit]);
    OutcomeOfOne(matrix, installed, edit);
    EditFrame(matrix, installed, spec);
    var edited := Outcome(matrix, w, install + [edit]);
    HonestElsewhere(w, edited, second);
    PassAndRoundsAreHonest(matrix, edited, second, n);
    HonestConcat(matrix, w, install + [edit], UpgradeSteps(matrix, edited, second, n));
    OutcomeOfTwo(matrix, w, install + [edit], UpgradeSteps(matrix, edited, second, n));
  }

  lemma EditIsHonest(w: World, spec: Spec)
    ensures StepHonest(w, EditSpec(spec))
  {
  }

  // ----- an upgrade over an edited store -----

  /**
   In the middle of an upgrade, point the main store at a database that does not exist yet
   while the stores are out of reach.  In this honest run from a new resource the next pass
   hands the frontend the target version and applies it, although the database the spec names
   holds no schema at all: the reading the record rests on was of the other one.
   */
  lemma UpgradeGoesOnOverEditedStore(matrix: Matrix, w: World, first: Env, second: Env, spec: Spec, database: string)
    requires Promising(matrix, w, first, second, spec) && AllHarmless(spec) && !spec.workloadIdentity
    requires Supported(w) && ReadsHonest(w, first) && ReadsHonest(w, second) && database !in w.databases
    ensures var edited := spec.(defaultStore := spec.defaultStore.(database := database));
            var steps := StartedSteps(matrix, w, first, second, spec, 2) + [ReconcileStep(second)] + [EditSpec(edited)];
            var all := steps + [ReconcileStep(OUTAGE)];
            var x := Outcome(matrix, w, steps);
            && HonestRun(matrix, Unfold(matrix, w, all), all)
            && x.spec == edited && GateOpen(matrix, x, OUTAGE)
            && WorkingRecord(x.spec, x.status, x.now).Some? && WorkingRecord(x.spec, x.status, x.now).value.to == spec.version
            && Frontend in PassAt(matrix, x, OUTAGE).versions.value
            && PassAt(matrix, x, OUTAGE).versions.value[Frontend] == spec.version
            && !ReallySatisfies(matrix, x.databases, x.spec, DefaultStore, spec.version)
  {
    hide Next, Promising, StartedSteps, Unfold, Outcome, AllHarmless, Healthy, Clear, Primed, CurrentPhase, Remaining, PassAt, Mid,
         HonestSteps, ReadsHonest, StepHonest, Supported, GateOpen, Assigns, OrderIndex, UpgradedThrough, LookupVersion;
    var started := StartedSteps(matrix, w, first, second, spec, 2);
    var r := ReconcileStep(second);
    var edited := spec.(defaultStore := spec.defaultStore.(database := database));
    PromisedVersions(matrix, w, first, second, spec);
    PromisedScale(matrix, w, first, second, spec);
    StartedUpgrade(matrix, w, first, second, spec, 2);
    StartedIsHonest(matrix, w, first, second, spec, 2);
    var end := Outcome(matrix, w, started);
    RankOfFrontend(end);
    PassOverFrontend(matrix, end, second);
    var passed := Next(matrix, end, r);
    RunExtends(matrix, w, started, r);
    PassKeepsStores(matrix, end, second);
    var x := Next(matrix, passed, EditSpec(edited));
    RunExtends(matrix, w, started + [r], EditSpec(edited));
    EditFrame(matrix, passed, edited);
    OverEditedStore(matrix, passed, x);
    HonestElsewhere(w, end, second);
    PassIsHonest(end, second);
    EditIsHonest(passed, edited);
    SilenceIsHonest(x);
    PassIsHonest(x, OUTAGE);
    HonestOne(matrix, end, r);
    HonestConcat(matrix, w, started, [r]);
    HonestOne(matrix, passed, EditSpec(edited));
    HonestConcat(matrix, w, started + [r], [EditSpec(edited)]);
    HonestOne(matrix, x, ReconcileStep(OUTAGE));
    HonestConcat(matrix, w, started + [r] + [EditSpec(edited)], [ReconcileStep(OUTAGE)]);
    HonestLife(matrix, w, started + [r] + [EditSpec(edited)] + [ReconcileStep(OUTAGE)]);
    NoDatabaseNoSchema(matrix, x, database, spec.version);
  }

  lemma NoDatabaseNoSchema(matrix: Matrix, w: World, database: string, version: string)
    requires w.spec.defaultStore.database == database && database !in w.databases
    ensures !ReallySatisfies(matrix, w.databases, w.spec, DefaultStore, version)
  {
  }

  lemma HonestLife(matrix: Matrix, w: World, steps: seq<Step>)
    requires w.status == NEW_STATUS && Supported(w) && HonestSteps(matrix, w, steps)
    ensures HonestRun(matrix, Unfold(matrix, w, steps), steps)
  {
    hide IsRun, Supported, StepHonest, Unfold;
    UnfoldIsRun(matrix, w, steps);
    HonestUnfold(matrix, w, steps);
  }

  /** A healthy pass over a frontend phase leaves a record that has reached the frontend, and the schema condition true. */
  lemma PassOverFrontend(matrix: Matrix, w: World, env: Env)
    requires Healthy(matrix, w, env) && CurrentPhase(w) == Some(RollingFrontend)
    ensures var next := Next(matrix, w, ReconcileStep(env));
            && next.spec == w.spec && next.status.conditions.schemaReady
            && CurrentPhase(next) in {Some(RollingFrontend), Some(RollingHistory)}
  {
    hide Next, Healthy, Mid, Commits, Blocked, CurrentPhase, ReconcileUpgrade, ApplyServices, EnabledServices;
    HealthyPass(matrix, w, env);
    CommittedConditions(matrix, w, env);
    PhaseStep(matrix, w, ReconcileStep(env));
  }

  /** Editing a store keeps the record, and an outage keeps the gate, so the frontend gets the target. */
  lemma OverEditedStore(matrix: Matrix, w: World, x: World)
    requires CurrentPhase(w) in {Some(RollingFrontend), Some(RollingHistory)} && w.status.conditions.schemaReady
    requires !w.spec.workloadIdentity && !w.spec.mtls
    requires x.status == w.status && x.spec == w.spec.(defaultStore := x.spec.defaultStore)
    ensures GateOpen(matrix, x, OUTAGE) && PassAt(matrix, x, OUTAGE).versions.Some?
    ensures WorkingRecord(x.spec, x.status, x.now).Some? && WorkingRecord(x.spec, x.status, x.now).value.to == w.spec.version
    ensures Frontend in PassAt(matrix, x, OUTAGE).versions.value
    ensures PassAt(matrix, x, OUTAGE).versions.value[Frontend] == w.spec.version
  {
    assert CurrentPhase(x) == CurrentPhase(w) && WorkingRecord(x.spec, x.status, x.now).Some?
        && WorkingRecord(x.spec, x.status, x.now).value.to == w.spec.version;
    hide PassAt, Mid, CurrentPhase, WorkingRecord, EnabledServices, ReconcileUpgrade, ReconcilePersistence, ReconcileMTLS,
         ReconcileServices, ComputeReadyAndPhase;
    OutageKeepsGate(matrix, x, OUTAGE);
    AssigningPass(matrix, x, OUTAGE);
    StageCovers(x.spec, Mid(matrix, x, OUTAGE), x.objects, OUTAGE, x.now, Frontend);
    EnabledListed(x.spec, Frontend);
    RollingIsAssigned(matrix, x, OUTAGE, Frontend);
  }
}
