/**
 From what the controller saw to what the databases hold: over runs in which
 schema versions never go down and inspectors report what they find, a schema the
 controller accepted is the schema that is there.
 */
module DatabaseRuns {
  import opened Wrappers
  import opened GoStrings
  import opened SchemaVersions
  import opened Versions
  import opened ClusterTypes
  import opened Persistence
  import opened Upgrades
  import opened Controller
  import opened PassFacts
  import opened UpgradeRuns

  type Databases = map<string, string>

  // ----- honest environments -----

  /** The database holds at least schema version `v`. */
  ghost predicate Holds(databases: Databases, db: string, v: string) {
    db in databases && TrimSpace(databases[db]) != "" && Compare(databases[db], v) >= 0
  }

  /** Schema versions never go down. */
  ghost predicate NeverDown(before: Databases, after: Databases) {
    forall db :: db in before && TrimSpace(before[db]) != "" ==> Holds(after, db, before[db])
  }

  /** A report of `v` is what the database holds, or blank. */
  predicate Truthful(databases: Databases, db: string, v: string) {
    TrimSpace(v) == "" || (db in databases && databases[db] == v)
  }

  /** The version a pod answered, if it answered one. */
  function Reported(pod: Pod): Option<string> {
    match MessageIn(pod.statuses)
    case Some(Answer(result)) => Some(result.version)
    case _ => None
  }

  /** A pod of the store was there before, or what it reports is the truth about the database it inspected. */
  ghost predicate PodHonest(before: Objects, databases: Databases, store: Store, pod: Pod) {
    || pod in before.PodsOf(store)
    || (Reported(pod).Some? ==> Truthful(databases, pod.database, Reported(pod).value))
  }

  ghost predicate EnvironmentHonest(w: World, objects: Objects, databases: Databases) {
    && NeverDown(w.databases, databases)
    && forall store, pod :: pod in objects.PodsOf(store) ==> PodHonest(w.objects, databases, store, pod)
  }

  /** Direct reads of a store report what its database holds. */
  ghost predicate ReadsHonest(w: World, env: Env) {
    forall store: Store :: env.StoreEnvOf(store).first.Version? ==>
      Truthful(w.databases, w.spec.StoreSpecOf(store).database, env.StoreEnvOf(store).first.version)
  }

  /** Spec edits are free: a store may be pointed elsewhere at any time. */
  ghost predicate StepHonest(w: World, step: Step) {
    match step
    case ReconcileStep(env) => ReadsHonest(w, env)
    case EditSpec(_) => true
    case Environment(objects, databases) => EnvironmentHonest(w, objects, databases)
  }

  /** What the pod reported is held by the database it inspected. */
  ghost predicate PodSupported(databases: Databases, pod: Pod) {
    Reported(pod).Some? && TrimSpace(Reported(pod).value) != "" ==> Holds(databases, pod.database, Reported(pod).value)
  }

  ghost predicate Supported(w: World) {
    forall store, pod :: pod in w.objects.PodsOf(store) ==> PodSupported(w.databases, pod)
  }

  ghost predicate HonestRun(matrix: Matrix, ws: seq<World>, steps: seq<Step>) {
    && IsRun(matrix, ws, steps)
    && Supported(ws[0])
    && forall i :: 0 <= i < |steps| ==> StepHonest(ws[i], steps[i])
  }

  lemma HonestStep(matrix: Matrix, ws: seq<World>, steps: seq<Step>, i: nat)
    requires HonestRun(matrix, ws, steps) && i < |steps|
    ensures ws[i + 1] == Next(matrix, ws[i], steps[i]) && StepHonest(ws[i], steps[i])
  {
    hide Next, StepHonest, Supported;
  }

  // ----- reports stay supported -----

  lemma HoldsIsMonotone(before: Databases, after: Databases, db: string, v: string)
    requires NeverDown(before, after) && Holds(before, db, v)
    ensures Holds(after, db, v)
  {
    hide Compare, TrimSpace;
    CompareIsTotalPreorder(v, before[db], after[db]);
    CompareIsTotalPreorder(before[db], v, after[db]);
    CompareIsTotalPreorder(after[db], v, before[db]);
    CompareIsTotalPreorder(after[db], before[db], v);
  }

  lemma TruthHolds(databases: Databases, db: string, v: string)
    requires Truthful(databases, db, v) && TrimSpace(v) != ""
    ensures Holds(databases, db, v)
  {
    hide Compare, TrimSpace;
    CompareIsTotalPreorder(v, v, v);
  }

  lemma EnvironmentKeepsSupport(w: World, objects: Objects, databases: Databases)
    requires Supported(w) && EnvironmentHonest(w, objects, databases)
    ensures Supported(w.(now := w.now + 1, objects := objects, databases := databases))
  {
    hide Holds, Truthful, TrimSpace, Reported, NeverDown;
    forall store, pod | pod in objects.PodsOf(store) ensures PodSupported(databases, pod) {
      assert PodHonest(w.objects, databases, store, pod);
      if pod in w.objects.PodsOf(store) {
        assert PodSupported(w.databases, pod);
      }
      if Reported(pod).Some? && TrimSpace(Reported(pod).value) != "" {
        if pod in w.objects.PodsOf(store) {
          HoldsIsMonotone(w.databases, databases, pod.database, Reported(pod).value);
        } else {
          TruthHolds(databases, pod.database, Reported(pod).value);
        }
      }
    }
  }

  lemma ServicesKeepPods(spec: Spec, status: Status, objects: Objects, env: Env, versions: Assignment)
    ensures var s := ReconcileServices(spec, status, objects, env, versions);
            s.objects.inspectors == objects.inspectors && s.objects.pods == objects.pods
  {
    hide ApplyServices, Rollup, AllAvailable;
  }

  lemma PassKeepsPods(matrix: Matrix, w: World, env: Env)
    ensures PassAt(matrix, w, env).objects.pods == w.objects.pods
  {
    hide ReconcilePersistence, ReconcileUpgrade, ReconcileServices, ComputeReadyAndPhase;
    var p := ReconcilePersistence(matrix, w.spec, w.status, w.objects, env);
    var t := ReconcileMTLS(w.spec, p.status, p.objects, env);
    var u := ReconcileUpgrade(w.spec, t.status, t.objects, env, w.now);
    ServicesKeepPods(w.spec, u.status, t.objects, env, u.versions);
  }

  lemma StepKeepsSupport(matrix: Matrix, w: World, step: Step)
    requires Supported(w) && StepHonest(w, step)
    ensures Supported(Next(matrix, w, step))
  {
    match step {
      case ReconcileStep(env) =>
        hide PassAt, PodSupported;
        PassKeepsPods(matrix, w, env);
        var next := Next(matrix, w, step);
        forall store, pod | pod in next.objects.PodsOf(store) ensures PodSupported(next.databases, pod) {
          assert pod in w.objects.PodsOf(store);
        }
      case EditSpec(spec) =>
        hide PodSupported;
      case Environment(objects, databases) =>
        EnvironmentKeepsSupport(w, objects, databases);
    }
  }

  lemma {:induction false} AlwaysSupported(matrix: Matrix, ws: seq<World>, steps: seq<Step>, i: nat)
    requires HonestRun(matrix, ws, steps) && i < |ws|
    ensures Supported(ws[i])
  {
    if i > 0 {
      HonestStep(matrix, ws, steps, i - 1);
      hide Supported, StepHonest, Next, IsRun;
      AlwaysSupported(matrix, ws, steps, i - 1);
      StepKeepsSupport(matrix, ws[i - 1], steps[i - 1]);
    }
  }

  // ----- what was seen is there -----

  /** The store's database really holds a schema that `version` accepts. */
  ghost predicate ReallySatisfies(matrix: Matrix, databases: Databases, spec: Spec, store: Store, version: string) {
    && LookupVersion(matrix, version).Some?
    && spec.StoreSpecOf(store).database in databases
    && SchemaSatisfies(databases[spec.StoreSpecOf(store).database],
                       MinSchemaFor(LookupVersion(matrix, version).value, spec.StoreSpecOf(store).kind, store))
  }

  /** An inspected store's answer, if there is one, comes from a pod that inspected the database the spec names. */
  ghost predicate AnswersForItself(w: World, store: Store) {
    var pod := AnsweringPod(w.objects.PodsOf(store));
    w.spec.Inspected(store) && pod.Some? ==> pod.value.database == w.spec.StoreSpecOf(store).database
  }

  lemma HoldingSatisfies(databases: Databases, db: string, v: string, required: string)
    requires Holds(databases, db, v) && SchemaSatisfies(v, required)
    ensures SchemaSatisfies(databases[db], required)
  {
    hide Compare, TrimSpace;
    CompareIsTotalPreorder(required, required, required);
    SatisfactionIsMonotone(v, databases[db], required, required);
  }

  lemma AnswerIsReported(pods: seq<Pod>)
    requires FirstMessage(pods).Some? && FirstMessage(pods).value.Answer?
    ensures AnsweringPod(pods).Some? && AnsweringPod(pods).value in pods
    ensures Reported(AnsweringPod(pods).value) == Some(FirstMessage(pods).value.result.version)
  {
    AnsweringPodIsIn(pods);
  }

  lemma {:induction false} AnsweringPodIsIn(pods: seq<Pod>)
    ensures AnsweringPod(pods).Some? ==> AnsweringPod(pods).value in pods
  {
    if pods != [] && MessageIn(pods[0].statuses).None? {
      AnsweringPodIsIn(pods[1..]);
    }
  }

  /**
   The database a pass's reading of a store comes from: the spec's for a directly read store,
   the answering pod's for an inspected one.  Nothing is said about Elasticsearch.
   */
  function ReadFrom(w: World, store: Store): Option<string> {
    if w.spec.StoreSpecOf(store).kind == Elasticsearch then None
    else if !w.spec.Inspected(store) then Some(w.spec.StoreSpecOf(store).database)
    else
      var pod := AnsweringPod(w.objects.PodsOf(store));
      if pod.Some? then Some(pod.value.database) else None
  }

  /** The databases bear a reading of `v` out. */
  ghost predicate Backs(databases: Databases, read: Option<string>, v: string) {
    read.Some? ==> Holds(databases, read.value, v)
  }

  /** A version an honest reconcile read is one the database it was read from holds. */
  lemma ReadIsHeld(w: World, env: Env, store: Store, v: string)
    requires Supported(w) && ReadsHonest(w, env) && Reads(w.spec, w.objects, env, store, v) && TrimSpace(v) != ""
    ensures Backs(w.databases, ReadFrom(w, store), v)
  {
    hide Holds, TrimSpace, FirstMessage, AnsweringPod, Reported;
    if w.spec.Inspected(store) {
      var pods := w.objects.PodsOf(store);
      AnswerIsReported(pods);
      assert PodSupported(w.databases, AnsweringPod(pods).value);
    } else if w.spec.StoreSpecOf(store).kind != Elasticsearch {
      TruthHolds(w.databases, w.spec.StoreSpecOf(store).database, v);
    }
  }

  lemma SeenIsReal(matrix: Matrix, w: World, env: Env, store: Store, version: string)
    requires Supported(w) && ReadsHonest(w, env) && w.spec.StoreSpecOf(store).kind != Elasticsearch
    requires AnswersForItself(w, store)
    requires SeenReadyFor(matrix, w.spec, w.objects, env, store, version)
    ensures ReallySatisfies(matrix, w.databases, w.spec, store, version)
  {
    hide Holds, TrimSpace, Compare, Reads, LookupVersion, MinSchemaFor, Supported, ReadsHonest, AnswersForItself;
    var required := MinSchemaFor(LookupVersion(matrix, version).value, w.spec.StoreSpecOf(store).kind, store);
    var v :| Reads(w.spec, w.objects, env, store, v) && SchemaSatisfies(v, required);
    ReadIsHeld(w, env, store, v);
    ReadsItself(w, env, store, v);
    HeldIsThere(w.databases, w.spec.StoreSpecOf(store).database, v);
    HoldingSatisfies(w.databases, w.spec.StoreSpecOf(store).database, v, required);
  }

  /** A reading that is for the store itself comes from the database the spec names. */
  lemma ReadsItself(w: World, env: Env, store: Store, v: string)
    requires Reads(w.spec, w.objects, env, store, v) && w.spec.StoreSpecOf(store).kind != Elasticsearch
    ensures AnswersForItself(w, store) <==> ReadFrom(w, store) == Some(w.spec.StoreSpecOf(store).database)
  {
    hide AnsweringPod;
    if w.spec.Inspected(store) { AnswerIsReported(w.objects.PodsOf(store)); }
  }

  lemma HeldIsThere(databases: Databases, db: string, v: string)
    requires Holds(databases, db, v)
    ensures db in databases
  {
  }

  /**
   In an honest run, a schema condition that a reconcile sets true, having reached the
   stores, tells the truth about every SQL and Cassandra database: it holds a schema the
   spec's version accepts, although an inspector's answer may come from a Job that ran long
   before.  A directly read store may have been pointed anywhere at any time; an inspected
   one must be the store its answering pod inspected.
   */
  lemma SchemaReadyIsReal(matrix: Matrix, ws: seq<World>, steps: seq<Step>, i: nat, store: Store)
    requires HonestRun(matrix, ws, steps) && i < |steps|
    requires steps[i].ReconcileStep? && Commits(matrix, ws[i], steps[i].env)
    requires ws[i + 1].status.conditions.reachable && ws[i + 1].status.conditions.schemaReady
    requires ws[i].spec.StoreSpecOf(store).kind != Elasticsearch && AnswersForItself(ws[i], store)
    ensures ReallySatisfies(matrix, ws[i + 1].databases, ws[i + 1].spec, store, ws[i + 1].spec.version)
  {
    assert ws[i + 1] == Next(matrix, ws[i], steps[i]) && StepHonest(ws[i], steps[i]);
    hide PassAt, Mid, SeenReadyFor, SeenReachable, Supported, ReadsHonest, ReallySatisfies, HonestRun, AnswersForItself;
    AlwaysSupported(matrix, ws, steps, i);
    PassOutcome(matrix, ws[i], steps[i].env);
    MidIsFresh(matrix, ws[i], steps[i].env);
    SeenIsReal(matrix, ws[i], steps[i].env, store, ws[i].spec.version);
  }

  /** What a database holds it keeps, whatever happens to the spec. */
  lemma {:induction false} BackingLasts(matrix: Matrix, ws: seq<World>, steps: seq<Step>, j: nat, i: nat, read: Option<string>, v: string)
    requires HonestRun(matrix, ws, steps) && j <= i < |ws| && Backs(ws[j].databases, read, v)
    ensures Backs(ws[i].databases, read, v)
  {
    hide Next, Backs, StepHonest;
    assert |ws| == |steps| + 1;
    hide HonestRun;
    if j < i {
      HonestStep(matrix, ws, steps, i - 1);
      BackingLasts(matrix, ws, steps, j, i - 1, read, v);
      BackingStays(matrix, ws[i - 1], steps[i - 1], read, v);
    }
  }

  lemma BackingStays(matrix: Matrix, w: World, step: Step, read: Option<string>, v: string)
    requires StepHonest(w, step) && Backs(w.databases, read, v)
    ensures Backs(Next(matrix, w, step).databases, read, v)
  {
    hide PassAt, Holds, NeverDown;
    if step.Environment? && read.Some? { HoldsIsMonotone(w.databases, step.databases, read.value, v); }
  }

  /** The reading a reconcile at step `j` took of the store is of the database the spec names at `i`. */
  predicate ReadingApplies(ws: seq<World>, j: nat, i: nat, store: Store)
    requires j < |ws| && i < |ws|
  {
    && ReadFrom(ws[j], store) == Some(ws[i].spec.StoreSpecOf(store).database)
    && ws[j].spec.StoreSpecOf(store).kind == ws[i].spec.StoreSpecOf(store).kind
  }

  /** A reading of a store makes its database's schema real for good, as far as it applies. */
  lemma ReadingLasts(matrix: Matrix, ws: seq<World>, steps: seq<Step>, j: nat, i: nat, up: Upgrade, store: Store)
    requires HonestRun(matrix, ws, steps) && j <= i < |steps| && SawSchema(matrix, ws, steps, j, up)
    requires ReadingApplies(ws, j, i, store)
    ensures ReallySatisfies(matrix, ws[i].databases, ws[i].spec, store, up.to)
  {
    HonestStep(matrix, ws, steps, j);
    assert steps[j].ReconcileStep? && ReadsHonest(ws[j], steps[j].env);
    assert SeenReadyFor(matrix, ws[j].spec, ws[j].objects, steps[j].env, store, up.to);
    hide Next, PassAt, Supported, ReadsHonest, WorkingRecord, HonestRun, SawSchema, Reads, LookupVersion, MinSchemaFor,
         TrimSpace, Compare, Holds;
    var required := MinSchemaFor(LookupVersion(matrix, up.to).value, ws[j].spec.StoreSpecOf(store).kind, store);
    var v :| Reads(ws[j].spec, ws[j].objects, steps[j].env, store, v) && SchemaSatisfies(v, required);
    AlwaysSupported(matrix, ws, steps, j);
    ReadIsHeld(ws[j], steps[j].env, store, v);
    BackingLasts(matrix, ws, steps, j, i, ReadFrom(ws[j], store), v);
    HeldIsThere(ws[i].databases, ws[i].spec.StoreSpecOf(store).database, v);
    HoldingSatisfies(ws[i].databases, ws[i].spec.StoreSpecOf(store).database, v, required);
  }

  /**
   In an honest run, whenever a service is handed an upgrade's target version, some reconcile
   of the same record up to now read every store; and if any of these readings was of the SQL
   or Cassandra database the spec now names, that database really holds the schema the target
   needs at the moment of assignment, however stale the controller's conditions are and
   whatever edits came before or lie between.
   */
  lemma RolloutNeverPrecedesSchema(matrix: Matrix, ws: seq<World>, steps: seq<Step>, i: nat, service: Service, store: Store)
    requires HonestRun(matrix, ws, steps) && i < |steps|
    requires steps[i].ReconcileStep? && RecordAt(ws, steps, i).Some?
    requires Assigns(matrix, ws[i], steps[i].env)
    requires var versions := PassAt(matrix, ws[i], steps[i].env).versions.value;
             service in versions && versions[service] == RecordAt(ws, steps, i).value.to
    requires ws[i].spec.StoreSpecOf(store).kind != Elasticsearch
    ensures exists j: nat :: j <= i && SawSchema(matrix, ws, steps, j, RecordAt(ws, steps, i).value)
    ensures forall j: nat :: j <= i && SawSchema(matrix, ws, steps, j, RecordAt(ws, steps, i).value)
                             && ReadingApplies(ws, j, i, store) ==>
              ReallySatisfies(matrix, ws[i].databases, ws[i].spec, store, RecordAt(ws, steps, i).value.to)
  {
    assert |ws| == |steps| + 1;
    SchemaSeenBeforeRollout(matrix, ws, steps, i, service);
    var up := RecordAt(ws, steps, i).value;
    hide Next, PassAt, ReallySatisfies, WorkingRecord, HonestRun, SawSchema, ReadingApplies;
    forall j: nat | j <= i && SawSchema(matrix, ws, steps, j, up) && ReadingApplies(ws, j, i, store)
      ensures ReallySatisfies(matrix, ws[i].databases, ws[i].spec, store, up.to)
    {
      ReadingLasts(matrix, ws, steps, j, i, up, store);
    }
  }

  // ----- when answers are for the store itself -----

  /** The store's inspector Job, if there is one, inspects the database the spec names. */
  predicate JobPointsHome(spec: Spec, objects: Objects, home: Store) {
    home in objects.inspectors ==> objects.inspectors[home].database == spec.StoreSpecOf(home).database
  }

  lemma ProbeStoreHome(spec: Spec, objects: Objects, env: Env, store: Store, cache: Cache, home: Store)
    requires JobPointsHome(spec, objects, home)
    ensures JobPointsHome(spec, ProbeStore(spec, objects, env, store, cache).objects, home)
  {
    hide InspectOnce, JobPointsHome;
    InspectOnceHome(spec, objects, env.StoreEnvOf(store), store, home);
  }

  lemma InspectOnceHome(spec: Spec, objects: Objects, env: StoreEnv, store: Store, home: Store)
    requires JobPointsHome(spec, objects, home)
    ensures JobPointsHome(spec, InspectOnce(spec, objects, env, store).objects, home)
  {
    hide FirstMessage, JobIsTerminal, EnsureInspectorJob;
    EnsureInspectorHome(spec, objects, env.inspector, store, home);
  }

  lemma EnsureInspectorHome(spec: Spec, objects: Objects, api: Api, store: Store, home: Store)
    requires JobPointsHome(spec, objects, home)
    ensures var e := EnsureInspectorJob(spec, objects, api, store);
            && JobPointsHome(spec, e.objects, home)
            && (e.job.Usable? ==> store in e.objects.inspectors && e.job.job == e.objects.inspectors[store])
  {
  }

  lemma {:induction false} ProbeAllHome(spec: Spec, objects: Objects, env: Env, targets: seq<Store>, cache: Cache, home: Store)
    requires JobPointsHome(spec, objects, home)
    ensures JobPointsHome(spec, ProbeAll(spec, objects, env, targets, cache).objects, home)
    decreases |targets|
  {
    if targets != [] {
      hide ProbeStore, JobPointsHome;
      ProbeStoreHome(spec, objects, env, targets[0], cache, home);
      var p := ProbeStore(spec, objects, env, targets[0], cache);
      ProbeAllHome(spec, p.objects, env, targets[1..], p.cache, home);
    }
  }

  lemma SchemaJobHome(spec: Spec, objects: Objects, env: StoreEnv, key: JobKey)
    ensures EnsureSchemaJob(spec, objects, env, key).objects.inspectors == objects.inspectors
  {
  }

  lemma StoreSchemaHome(spec: Spec, objects: Objects, env: StoreEnv, store: Store, cache: Cache, minSchema: string, home: Store)
    requires JobPointsHome(spec, objects, home)
    ensures JobPointsHome(spec, ReconcileStoreSchema(spec, objects, env, store, cache, minSchema).objects, home)
  {
    hide EnsureSchemaJob, SchemaSatisfies, ReadVersion;
    var setup := EnsureSchemaJob(spec, objects, env, JobKey(store, Setup)).objects;
    SchemaJobHome(spec, objects, env, JobKey(store, Setup));
    SchemaJobHome(spec, objects, env, JobKey(store, Update));
    SchemaJobHome(spec, setup, env, JobKey(store, Update));
  }

  lemma {:induction false} SchemaAllHome(info: VersionInfo, spec: Spec, status: Status, objects: Objects, env: Env,
                                         targets: seq<Store>, cache: Cache, migrating: bool, home: Store)
    requires JobPointsHome(spec, objects, home)
    ensures JobPointsHome(spec, SchemaAll(info, spec, status, objects, env, targets, cache, migrating).objects, home)
    decreases |targets|
  {
    if targets != [] {
      hide ReconcileStoreSchema, MinSchemaFor, JobPointsHome;
      var store := targets[0];
      var minSchema := MinSchemaFor(info, spec.StoreSpecOf(store).kind, store);
      StoreSchemaHome(spec, objects, env.StoreEnvOf(store), store, cache, minSchema, home);
      var r := ReconcileStoreSchema(spec, objects, env.StoreEnvOf(store), store, cache, minSchema);
      var recorded := Record(status, store, r.version);
      SchemaAllHome(info, spec, recorded, r.objects, env, targets[1..], cache, migrating, home);
      SchemaAllHome(info, spec, recorded, r.objects, env, targets[1..], cache, true, home);
    }
  }

  lemma PersistenceHome(matrix: Matrix, spec: Spec, status: Status, objects: Objects, env: Env, home: Store)
    requires JobPointsHome(spec, objects, home)
    ensures JobPointsHome(spec, ReconcilePersistence(matrix, spec, status, objects, env).objects, home)
  {
    hide ProbeAll, SchemaAll, LookupVersion, JobPointsHome;
    ProbeAllHome(spec, objects, env, TARGETS, map[], home);
    var probed := ProbeAll(spec, objects, env, TARGETS, map[]);
    var info := LookupVersion(matrix, spec.version);
    if info.Some? {
      SchemaAllHome(info.value, spec, SetReachable(status, true), probed.objects, env, TARGETS, probed.cache, false, home);
    }
  }

  /** A reconcile points no inspector Job away from the spec's database. */
  lemma PassHome(matrix: Matrix, w: World, env: Env, home: Store)
    requires JobPointsHome(w.spec, w.objects, home)
    ensures JobPointsHome(w.spec, PassAt(matrix, w, env).objects, home)
  {
    hide ReconcilePersistence, ReconcileUpgrade, ReconcileServices, ComputeReadyAndPhase;
    PersistenceHome(matrix, w.spec, w.status, w.objects, env, home);
    var p := ReconcilePersistence(matrix, w.spec, w.status, w.objects, env);
    var t := ReconcileMTLS(w.spec, p.status, p.objects, env);
    var u := ReconcileUpgrade(w.spec, t.status, t.objects, env, w.now);
    ServicesKeepPods(w.spec, u.status, t.objects, env, u.versions);
  }

  /** The store's inspector Job and every pod found under it are for the database the spec names. */
  ghost predicate AllHome(w: World, store: Store) {
    && JobPointsHome(w.spec, w.objects, store)
    && forall pod :: pod in w.objects.PodsOf(store) ==> pod.database == w.spec.StoreSpecOf(store).database
  }

  /**
   The environment leaves the store's inspector to itself: nobody else creates its Job or
   re-points it, and a new pod is one that a Job still there has started.
   */
  ghost predicate InspectorAlone(w: World, step: Step, store: Store) {
    step.Environment? ==>
      && (store in step.objects.inspectors ==>
            store in w.objects.inspectors && step.objects.inspectors[store].database == w.objects.inspectors[store].database)
      && (forall pod :: pod in step.objects.PodsOf(store) ==>
            || pod in w.objects.PodsOf(store)
            || (store in w.objects.inspectors && w.objects.inspectors[store].database == pod.database))
  }

  lemma StepKeepsHome(matrix: Matrix, w: World, step: Step, store: Store)
    requires InspectorAlone(w, step, store) && AllHome(w, store)
    requires Next(matrix, w, step).spec.StoreSpecOf(store).database == w.spec.StoreSpecOf(store).database
    ensures AllHome(Next(matrix, w, step), store)
  {
    match step {
      case ReconcileStep(env) =>
        hide PassAt;
        PassHome(matrix, w, env, store);
        PassKeepsPods(matrix, w, env);
        assert Next(matrix, w, step).objects.PodsOf(store) == w.objects.PodsOf(store);
      case EditSpec(spec) =>
      case Environment(objects, databases) =>
    }
  }

  /**
   From a state in which the store's Job and pods are for its database, answers are for the
   store itself for as long as the spec names that database and nobody else starts inspector
   pods; other edits do not matter.
   */
  lemma {:induction false} AnswersStayHome(matrix: Matrix, ws: seq<World>, steps: seq<Step>, j: nat, i: nat, store: Store)
    requires IsRun(matrix, ws, steps) && j <= i < |ws| && AllHome(ws[j], store)
    requires forall k :: j <= k <= i ==> ws[k].spec.StoreSpecOf(store).database == ws[j].spec.StoreSpecOf(store).database
    requires |steps| < |ws| && forall k :: j <= k < i && k < |steps| ==> InspectorAlone(ws[k], steps[k], store)
    ensures AllHome(ws[i], store) && AnswersForItself(ws[i], store)
  {
    hide Next, InspectorAlone;
    assert |ws| == |steps| + 1;
    if j < i {
      assert ws[i] == Next(matrix, ws[i - 1], steps[i - 1]);
      hide IsRun;
      AnswersStayHome(matrix, ws, steps, j, i - 1, store);
      StepKeepsHome(matrix, ws[i - 1], steps[i - 1], store);
    }
    AnsweringPodIsIn(ws[i].objects.PodsOf(store));
  }

  // ----- exactly what a reading guarantees -----

  /** Whatever the databases hold, as long as they bear the reading out, the store the spec names meets its version. */
  ghost predicate Guarantees(matrix: Matrix, read: Option<string>, v: string, spec: Spec, store: Store) {
    forall databases :: Backs(databases, read, v) ==> ReallySatisfies(matrix, databases, spec, store, spec.version)
  }

  /** The reading was of the database the spec names, at a version that the spec's version accepts for it. */
  predicate Serves(matrix: Matrix, read: Option<string>, v: string, spec: Spec, store: Store) {
    && read == Some(spec.StoreSpecOf(store).database)
    && LookupVersion(matrix, spec.version).Some?
    && SchemaSatisfies(v, MinSchemaFor(LookupVersion(matrix, spec.version).value, spec.StoreSpecOf(store).kind, store))
  }

  lemma GuaranteesExactly(matrix: Matrix, read: Option<string>, v: string, spec: Spec, store: Store)
    requires TrimSpace(v) != ""
    ensures Guarantees(matrix, read, v, spec, store) <==> Serves(matrix, read, v, spec, store)
  {
    hide Compare, TrimSpace, LookupVersion, MinSchemaFor;
    if Serves(matrix, read, v, spec, store) {
      var required := MinSchemaFor(LookupVersion(matrix, spec.version).value, spec.StoreSpecOf(store).kind, store);
      forall databases | Backs(databases, read, v) ensures ReallySatisfies(matrix, databases, spec, store, spec.version) {
        HoldingSatisfies(databases, read.value, v, required);
      }
    } else {
      CompareIsTotalPreorder(v, v, v);
      var only: Databases := if read.Some? then map[read.value := v] else map[];
      assert Backs(only, read, v) && !ReallySatisfies(matrix, only, spec, store, spec.version);
    }
  }

  /**
   The readings of one pass.  A pass that reaches the stores and sets the schema condition
   true has recorded for each store a reading that guarantees, whatever the databases hold,
   that the store meets the spec's version, exactly when the store is SQL or Cassandra and the
   reading is for the store itself: an inspector Job's name carries no database, so after an
   edit an old answer still counts.
   */
  lemma SchemaReadyGuaranteesExactly(matrix: Matrix, w: World, env: Env, store: Store)
    requires Assigns(matrix, w, env)
    requires Mid(matrix, w, env).conditions.reachable && Mid(matrix, w, env).conditions.schemaReady
    ensures store in Mid(matrix, w, env).schemaVersions
    ensures Guarantees(matrix, ReadFrom(w, store), Mid(matrix, w, env).schemaVersions[store], w.spec, store)
       <==> w.spec.StoreSpecOf(store).kind != Elasticsearch && AnswersForItself(w, store)
  {
    hide Mid, Assigns, Reads, AnswersForItself, Guarantees, TrimSpace, Compare, LookupVersion, MinSchemaFor;
    ReadingRecorded(matrix, w, env, store);
    var v := Mid(matrix, w, env).schemaVersions[store];
    GuaranteesExactly(matrix, ReadFrom(w, store), v, w.spec, store);
    if w.spec.StoreSpecOf(store).kind != Elasticsearch { ReadsItself(w, env, store, v); }
  }
}
