/**
 What the persistence stage does, outcome by outcome, in terms of the objects it finds and the
 answers it gets: which schema Jobs count, what an inspection answers, when a store is
 reachable, and what a store's schema is judged to be.
 */
module StoreVerdicts {
  import opened Wrappers
  import opened SchemaVersions
  import opened Versions
  import opened ClusterTypes
  import opened Persistence
  import opened PersistenceFacts

  // ----- Jobs -----

  predicate IsEnding(c: JobCondition) {
    c.isTrue && c.kind in {JobComplete, JobFailedType}
  }

  /** The first true condition that ends a Job is of this kind. */
  ghost predicate EndsIn(conditions: seq<JobCondition>, kind: JobConditionType) {
    FirstIs(conditions, IsEnding, JobCondition(kind, true))
  }

  lemma {:induction false} EndingExactly(conditions: seq<JobCondition>)
    ensures Ending(conditions) == Some(JobSucceeded) <==> EndsIn(conditions, JobComplete)
    ensures Ending(conditions) == Some(JobFailed) <==> EndsIn(conditions, JobFailedType)
    ensures Ending(conditions) == None <==> forall c :: c in conditions ==> !IsEnding(c)
  {
    if conditions != [] {
      FirstOfRest(conditions, IsEnding, JobCondition(JobComplete, true));
      FirstOfRest(conditions, IsEnding, JobCondition(JobFailedType, true));
      EndingExactly(conditions[1..]);
      assert conditions == [conditions[0]] + conditions[1..];
    }
  }

  /** The Job's schema container runs the tools of this version. */
  ghost predicate RunsToolsOf(job: Job, version: string) {
    Runs(job.containers, "schema", "temporalio/admin-tools:" + version)
  }

  /** The Job found under the key, if there is one, and whether it is this version's and not on its way out. */
  ghost predicate Current(spec: Spec, jobs: map<JobKey, Job>, key: JobKey) {
    key in jobs && !jobs[key].deleting && RunsToolsOf(jobs[key], spec.version)
  }

  ghost predicate Stale(spec: Spec, jobs: map<JobKey, Job>, key: JobKey) {
    key in jobs && !jobs[key].deleting && !RunsToolsOf(jobs[key], spec.version)
  }

  lemma ToolsByImage(job: Job, version: string)
    ensures ImageOf(job.containers, SCHEMA_CONTAINER) == Some(AdminToolsImage(version)) <==> RunsToolsOf(job, version)
  {
    ImageOfExactly(job.containers, "schema", "temporalio/admin-tools:" + version);
  }

  lemma ClassifiedExactly(job: Job)
    ensures ClassifyJob(job) == JobSucceeded <==> EndsIn(job.conditions, JobComplete)
    ensures ClassifyJob(job) == JobFailed <==> EndsIn(job.conditions, JobFailedType)
    ensures ClassifyJob(job) == JobRunning <==> (forall c :: c in job.conditions ==> !IsEnding(c)) && job.active > 0
  {
    hide Ending, EndsIn, IsEnding;
    EndingExactly(job.conditions);
    EndingIsFinal(job.conditions);
  }

  /**
   `ensureSchemaJob`, outcome by outcome.  Only a Job that runs this version's tools and is not
   being deleted reports how it stands; one that runs another version's tools is deleted; a
   missing one is created.  Everything else is pending, or an error of the call that was due.
   */
  lemma SchemaJobExactly(spec: Spec, objects: Objects, env: StoreEnv, key: JobKey)
    ensures var jobs := objects.schemaJobs;
            var api := if key.action == Setup then env.setup else env.update;
            var r := EnsureSchemaJob(spec, objects, env, key);
            var current := !api.getFails && Current(spec, jobs, key);
            && (r.phase == Some(JobSucceeded) <==> current && EndsIn(jobs[key].conditions, JobComplete))
            && (r.phase == Some(JobFailed) <==> current && EndsIn(jobs[key].conditions, JobFailedType))
            && (r.phase == Some(JobRunning) <==>
                  current && (forall c :: c in jobs[key].conditions ==> !IsEnding(c)) && jobs[key].active > 0)
            && (r.phase == None <==>
                  || api.getFails
                  || (key !in jobs && !api.createExists && api.createFails)
                  || (Stale(spec, jobs, key) && api.deleteFails))
  {
    hide ImageOf, RunsToolsOf, ClassifyJob, EndsIn, IsEnding, AdminToolsImage;
    if key in objects.schemaJobs {
      ToolsByImage(objects.schemaJobs[key], spec.version);
      ClassifiedExactly(objects.schemaJobs[key]);
    }
  }

  /** What `ensureSchemaJob` does to the Jobs: creates the missing one, marks a stale one, and leaves all others alone. */
  lemma SchemaJobEffects(spec: Spec, objects: Objects, env: StoreEnv, key: JobKey)
    ensures var jobs := objects.schemaJobs;
            var api := if key.action == Setup then env.setup else env.update;
            var r := EnsureSchemaJob(spec, objects, env, key);
            && r.objects == objects.(schemaJobs := r.objects.schemaJobs)
            && (if !api.getFails && key !in jobs && !api.createExists && !api.createFails then
                  && r.objects.schemaJobs.Keys == jobs.Keys + {key}
                  && (forall k :: k in jobs ==> r.objects.schemaJobs[k] == jobs[k])
                  && NewJob(spec, r.objects.schemaJobs[key], key.store)
                else if !api.getFails && Stale(spec, jobs, key) && !api.deleteFails then
                  r.objects.schemaJobs == jobs[key := jobs[key].(deleting := true)]
                else r.objects.schemaJobs == jobs)
  {
    hide ImageOf, RunsToolsOf, ClassifyJob, AdminToolsImage;
    if key in objects.schemaJobs { ToolsByImage(objects.schemaJobs[key], spec.version); }
    BuiltIsNew(spec, key.store);
  }

  /** A Job just created for the store: nothing happened yet, and it works on the store's database with the tools the template allows. */
  predicate NewJob(spec: Spec, job: Job, store: Store) {
    && job.conditions == [] && job.active == 0 && !job.deleting
    && job.database == (if store == DefaultStore then spec.defaultStore else spec.visibilityStore).database
    && job.containers == [Container("schema",
         if spec.schemaImage.Some? && !spec.workloadIdentity then spec.schemaImage.value else "temporalio/admin-tools:" + spec.version)]
  }

  lemma BuiltIsNew(spec: Spec, store: Store)
    ensures NewJob(spec, BuildSchemaJob(spec, store), store)
  {
  }

  /**
   A Job the operator built for one version counts under another exactly when the two versions
   are the same; under any other version it is deleted and the phase is pending, however it ended.
   */
  lemma JobCountsForItsVersionOnly(built: Spec, spec: Spec, objects: Objects, env: StoreEnv, key: JobKey)
    requires key in objects.schemaJobs && !objects.schemaJobs[key].deleting
    requires objects.schemaJobs[key].containers == BuildSchemaJob(built, key.store).containers
    requires built.schemaImage.None? || built.workloadIdentity
    requires (if key.action == Setup then env.setup else env.update) == Api(false, false, false, false)
    ensures var job, r := objects.schemaJobs[key], EnsureSchemaJob(spec, objects, env, key);
            && (built.version == spec.version ==>
                  && r.objects == objects
                  && (r.phase == Some(JobSucceeded) <==> EndsIn(job.conditions, JobComplete))
                  && (r.phase == Some(JobFailed) <==> EndsIn(job.conditions, JobFailedType)))
            && (built.version != spec.version ==>
                  && r.phase == Some(JobPending)
                  && r.objects.schemaJobs == objects.schemaJobs[key := job.(deleting := true)])
  {
    var job := objects.schemaJobs[key];
    ToolsOfOneVersion(job, built.version, spec.version);
    SchemaJobExactly(spec, objects, env, key);
    SchemaJobEffects(spec, objects, env, key);
    hide EnsureSchemaJob, RunsToolsOf, EndsIn;
  }

  lemma ToolsOfOneVersion(job: Job, a: string, b: string)
    requires job.containers == [Container("schema", "temporalio/admin-tools:" + a)]
    ensures RunsToolsOf(job, b) <==> a == b
  {
    var prefix := "temporalio/admin-tools:";
    if prefix + a == prefix + b {
      assert a == (prefix + a)[|prefix|..] == (prefix + b)[|prefix|..] == b;
    }
    if a == b { assert job.containers[0] == Container("schema", prefix + b); }
  }

  // ----- inspections -----

  /** The inspect container left a message. */
  predicate Says(status: ContainerStatus) {
    status.name == "inspect" && status.message.Some?
  }

  /** The first message among a pod's containers. */
  ghost predicate SaysFirst(statuses: seq<ContainerStatus>, m: Message) {
    FirstIs(statuses, Says, ContainerStatus("inspect", Some(m)))
  }

  predicate Silent(pod: Pod) {
    forall status :: status in pod.statuses ==> !Says(status)
  }

  predicate Speaks(pod: Pod) {
    !Silent(pod)
  }

  /** The first message of the first pod that left any. */
  ghost predicate Answers(pods: seq<Pod>, m: Message) {
    exists pod :: FirstIs(pods, Speaks, pod) && SaysFirst(pod.statuses, m)
  }

  lemma {:induction false} MessageInExactly(statuses: seq<ContainerStatus>, m: Message)
    ensures MessageIn(statuses) == Some(m) <==> SaysFirst(statuses, m)
    ensures MessageIn(statuses) == None <==> forall status :: status in statuses ==> !Says(status)
  {
    if statuses != [] {
      FirstOfRest(statuses, Says, ContainerStatus("inspect", Some(m)));
      MessageInExactly(statuses[1..], m);
      assert statuses == [statuses[0]] + statuses[1..];
    }
  }

  lemma {:induction false} AnsweringPodExactly(pods: seq<Pod>, pod: Pod)
    ensures AnsweringPod(pods) == Some(pod) <==> FirstIs(pods, Speaks, pod)
    ensures AnsweringPod(pods) == None <==> forall p :: p in pods ==> Silent(p)
  {
    hide MessageIn, Says, FirstIs;
    if pods == [] {
      NothingFirst(pod);
    } else {
      FirstOfRest(pods, Speaks, pod);
      MessageInExactly(pods[0].statuses, Garbage);
      AnsweringPodExactly(pods[1..], pod);
      assert pods == [pods[0]] + pods[1..];
    }
  }

  lemma NothingFirst(pod: Pod)
    ensures !FirstIs([], Speaks, pod)
  {
  }

  lemma FirstMessageExactly(pods: seq<Pod>, m: Message)
    ensures FirstMessage(pods) == Some(m) <==> Answers(pods, m)
    ensures FirstMessage(pods) == None <==> forall pod :: pod in pods ==> Silent(pod)
  {
    hide MessageIn, AnsweringPod, Says, SaysFirst, FirstIs, Silent;
    forall pod ensures AnsweringPod(pods) == Some(pod) <==> FirstIs(pods, Speaks, pod) { AnsweringPodExactly(pods, pod); }
    AnsweringPodExactly(pods, Pod("", []));
    var pod := AnsweringPod(pods);
    if pod.Some? {
      MessageInExactly(pod.value.statuses, m);
      Spoken(pods, pod.value);
    }
  }

  lemma Spoken(pods: seq<Pod>, pod: Pod)
    requires AnsweringPod(pods) == Some(pod)
    ensures MessageIn(pod.statuses).Some?
  {
  }

  /** The pass has an inspector Job to listen to: the one it found, unless that is being deleted, or the one it created. */
  predicate Listens(objects: Objects, api: Api, store: Store) {
    !api.getFails && if store in objects.inspectors then !objects.inspectors[store].deleting else !api.createExists && !api.createFails
  }

  /** A finished Job was found and no pod of it left a message. */
  ghost predicate Spent(objects: Objects, store: Store) {
    && store in objects.inspectors && !objects.inspectors[store].deleting
    && (exists c :: c in objects.inspectors[store].conditions && IsEnding(c))
    && (forall pod :: pod in objects.PodsOf(store) ==> Silent(pod))
  }

  /**
   `inspectOnce`, outcome by outcome: the first message decides, an undecodable one is an
   error, and without one the Job is waited for, or deleted once it has finished.
   */
  lemma InspectionExactly(spec: Spec, objects: Objects, env: StoreEnv, store: Store, result: InspectResult)
    ensures var api, pods := env.inspector, objects.PodsOf(store);
            var r := InspectOnce(spec, objects, env, store);
            && (r.inspection == Answered(result) <==>
                  Listens(objects, api, store) && !env.podListFails && Answers(pods, Answer(result)))
            && (r.inspection == InspectFailed <==>
                  || api.getFails
                  || (store !in objects.inspectors && !api.createExists && api.createFails)
                  || (Listens(objects, api, store)
                      && (env.podListFails || Answers(pods, Garbage) || (Spent(objects, store) && api.deleteFails))))
  {
    hide FirstMessage, Answers, Ending, Says, IsEnding;
    var pods := objects.PodsOf(store);
    FirstMessageExactly(pods, Answer(result));
    FirstMessageExactly(pods, Garbage);
    EndingExactly([]);
    if store in objects.inspectors { EndingExactly(objects.inspectors[store].conditions); }
  }

  /** What `inspectOnce` does to the inspector Jobs: creates the missing one, marks a spent one, and nothing else. */
  lemma InspectionEffects(spec: Spec, objects: Objects, env: StoreEnv, store: Store)
    ensures var jobs, after := objects.inspectors, InspectOnce(spec, objects, env, store).objects;
            && after == objects.(inspectors := after.inspectors)
            && (if Listens(objects, env.inspector, store) && store !in jobs then
                  && after.inspectors.Keys == jobs.Keys + {store}
                  && (forall s :: s in jobs ==> after.inspectors[s] == jobs[s])
                  && NewInspector(spec, after.inspectors[store], store)
                else if Spent(objects, store) && !env.inspector.getFails && !env.podListFails && !env.inspector.deleteFails then
                  after.inspectors == jobs[store := jobs[store].(deleting := true)]
                else after.inspectors == jobs)
  {
    hide FirstMessage, Ending, IsEnding, Silent;
    var pods := objects.PodsOf(store);
    FirstMessageExactly(pods, Garbage);
    EndingExactly([]);
    if store in objects.inspectors { EndingExactly(objects.inspectors[store].conditions); }
  }

  /** An inspector Job just created for the store. */
  predicate NewInspector(spec: Spec, job: Job, store: Store) {
    && job.conditions == [] && job.active == 0 && !job.deleting && |job.containers| == 1 && job.containers[0].name == "inspect"
    && job.database == (if store == DefaultStore then spec.defaultStore else spec.visibilityStore).database
  }

  // ----- reachability -----

  /** The store answers: a SQL store under workload identity through its inspector, any other directly. */
  ghost predicate StoreAnswers(spec: Spec, objects: Objects, env: Env, store: Store) {
    var kind := if store == DefaultStore then spec.defaultStore.kind else spec.visibilityStore.kind;
    var e := if store == DefaultStore then env.defaultStore else env.visibilityStore;
    if spec.workloadIdentity && kind == Sql then
      && Listens(objects, e.inspector, store) && !e.podListFails
      && exists v :: Answers(objects.PodsOf(store), Answer(InspectResult(true, v)))
    else e.probe == ProbeOk
  }

  lemma ProbedExactly(spec: Spec, objects: Objects, env: Env, store: Store, cache: Cache)
    ensures ProbeStore(spec, objects, env, store, cache).reachable <==> StoreAnswers(spec, objects, env, store)
  {
    hide InspectOnce, Answers, Listens;
    var e := env.StoreEnvOf(store);
    forall result { InspectionExactly(spec, objects, e, store, result); }
    var i := InspectOnce(spec, objects, e, store).inspection;
    if i.Answered? && !i.result.reachable {
      OneAnswer(objects.PodsOf(store), i.result);
    }
    if i.Answered? && i.result.reachable {
      assert i.result == InspectResult(true, i.result.version);
    }
  }

  lemma OneAnswer(pods: seq<Pod>, result: InspectResult)
    requires Answers(pods, Answer(result))
    ensures forall other :: Answers(pods, Answer(other)) ==> other == result
  {
    hide Answers, FirstMessage;
    FirstMessageExactly(pods, Answer(result));
    forall other | Answers(pods, Answer(other)) ensures other == result { FirstMessageExactly(pods, Answer(other)); }
  }

  /** Probing one store changes nothing about whether another answers. */
  lemma ProbeLeavesOthers(spec: Spec, objects: Objects, env: Env, store: Store, other: Store, cache: Cache)
    requires other != store
    ensures StoreAnswers(spec, ProbeStore(spec, objects, env, store, cache).objects, env, other) <==> StoreAnswers(spec, objects, env, other)
  {
    hide InspectOnce, Answers, Spent, NewInspector;
    InspectionEffects(spec, objects, env.StoreEnvOf(store), store);
  }

  lemma ProbeBoth(spec: Spec, objects: Objects, env: Env)
    ensures ProbeAll(spec, objects, env, TARGETS, map[]).reachable <==>
              StoreAnswers(spec, objects, env, DefaultStore) && StoreAnswers(spec, objects, env, VisibilityStore)
  {
    hide ProbeStore, StoreAnswers;
    ProbedExactly(spec, objects, env, DefaultStore, map[]);
    ProbeLeavesOthers(spec, objects, env, DefaultStore, VisibilityStore, map[]);
    var first := ProbeStore(spec, objects, env, DefaultStore, map[]);
    ProbedExactly(spec, first.objects, env, VisibilityStore, first.cache);
    var second := ProbeStore(spec, first.objects, env, VisibilityStore, first.cache);
    assert TARGETS[1..] == [VisibilityStore];
    assert [VisibilityStore][1..] == [];
    assert ProbeAll(spec, second.objects, env, [], second.cache).reachable;
    assert ProbeAll(spec, first.objects, env, [VisibilityStore], first.cache).reachable <==> second.reachable;
  }

  /**
   The reachability condition the stage computes is exact: true if and only if the targets
   could be resolved and both stores answered.  A stage that finds them unreachable is not an
   error, changes nothing else of the status and no schema Job.
   */
  lemma ReachableExactly(matrix: Matrix, spec: Spec, status: Status, objects: Objects, env: Env)
    requires !(spec.workloadIdentity && env.serviceAccountFails)
    ensures var r := ReconcilePersistence(matrix, spec, status, objects, env);
            && (r.status.conditions.reachable <==>
                  && !env.targetsFail
                  && StoreAnswers(spec, objects, env, DefaultStore) && StoreAnswers(spec, objects, env, VisibilityStore))
            && (!r.status.conditions.reachable ==>
                  && !r.failed && r.objects.schemaJobs == objects.schemaJobs
                  && r.status == status.(conditions := status.conditions.(reachable := false)))
  {
    hide ProbeAll, SchemaAll, LookupVersion, StoreAnswers, StoreSatisfied;
    ProbeBoth(spec, objects, env);
    var probed := ProbeAll(spec, objects, env, TARGETS, map[]);
    var info := LookupVersion(matrix, spec.version);
    if info.Some? {
      SchemaAllIsFresh(info.value, spec, SetReachable(status, true), probed.objects, env, TARGETS, probed.cache, false);
    }
  }

  // ----- schema -----

  /** The stage's verdict on one store. */
  function JudgeStore(info: VersionInfo, spec: Spec, objects: Objects, env: Env, store: Store, cache: Cache): StoreResult {
    ReconcileStoreSchema(spec, objects, env.StoreEnvOf(store), store, cache,
                         MinSchemaFor(info, spec.StoreSpecOf(store).kind, store))
  }

  /** What the version asks of the store: its own minimum, by the store's kind and role. */
  predicate Accepts(info: VersionInfo, spec: Spec, store: Store, v: string) {
    match (if store == DefaultStore then spec.defaultStore else spec.visibilityStore).kind
    case Cassandra => SchemaSatisfies(v, info.minSchemaCassandra)
    case Elasticsearch => SchemaSatisfies(v, info.minSchemaES)
    case Sql => SchemaSatisfies(v, if store == DefaultStore then info.minSchemaSQL else info.minSchemaSQLVisibility)
  }

  predicate ReadsAs(reading: Reading, info: VersionInfo, spec: Spec, store: Store) {
    reading.Version? && Accepts(info, spec, store, reading.version)
  }

  /** Elasticsearch: the schema was read, does not do, and its template is applied and read again. */
  predicate Reapplies(info: VersionInfo, spec: Spec, e: StoreEnv, store: Store, reading: Reading) {
    spec.StoreSpecOf(store).kind == Elasticsearch && reading.Version? && !Accepts(info, spec, store, reading.version) && !e.applyFails
  }

  /** SQL and Cassandra: the schema was read and does not do, so Jobs must bring it up. */
  predicate NeedsJobs(info: VersionInfo, spec: Spec, store: Store, reading: Reading) {
    spec.StoreSpecOf(store).kind != Elasticsearch && reading.Version? && !Accepts(info, spec, store, reading.version)
  }

  /** The Jobs are past setup: there was a schema already, or the setup Job counts as succeeded. */
  ghost predicate PastSetup(spec: Spec, objects: Objects, e: StoreEnv, store: Store, reading: Reading) {
    reading.Version? && (reading.version != "" || EnsureSchemaJob(spec, objects, e, JobKey(store, Setup)).phase == Some(JobSucceeded))
  }

  /** A finished update makes the inspector look again: its Job must be deleted, and that call fails. */
  predicate RefreshFails(objects: Objects, e: StoreEnv, store: Store) {
    e.refresh.getFails || (store in objects.inspectors && e.refresh.deleteFails)
  }

  /**
   The verdict on a store, for every reading and every state of its Jobs.  It is done only by
   a version that was read, judged by the minimum of its own kind and role.
   */
  lemma VerdictExactly(info: VersionInfo, spec: Spec, objects: Objects, env: Env, store: Store, cache: Cache)
    ensures var e := env.StoreEnvOf(store);
            var reading := ReadVersion(spec, e, store, cache);
            var setup := EnsureSchemaJob(spec, objects, e, JobKey(store, Setup)).phase;
            var update := EnsureSchemaJob(spec, objects, e, JobKey(store, Update)).phase;
            var jobs, past := NeedsJobs(info, spec, store, reading), PastSetup(spec, objects, e, store, reading);
            var verdict := JudgeStore(info, spec, objects, env, store, cache).verdict;
            && (verdict == Done <==>
                  ReadsAs(reading, info, spec, store) || (Reapplies(info, spec, e, store, reading) && ReadsAs(e.second, info, spec, store)))
            && (verdict == Inspecting <==>
                  reading == ReadInspecting || (Reapplies(info, spec, e, store, reading) && e.second == ReadInspecting))
            && (verdict == MigrationFailed <==>
                  jobs && if past then update == Some(JobFailed) else setup == Some(JobFailed))
            && (verdict == Failed <==>
                  || reading == ReadFailed
                  || (Reapplies(info, spec, e, store, reading) && e.second == ReadFailed)
                  || (&& spec.StoreSpecOf(store).kind == Elasticsearch && reading.Version?
                      && !Accepts(info, spec, store, reading.version) && e.applyFails)
                  || (jobs && if past then update == None || (update == Some(JobSucceeded) && RefreshFails(objects, e, store))
                              else setup == None))
  {
    hide EnsureSchemaJob, SchemaSatisfies, ReadVersion;
    var e := env.StoreEnvOf(store);
    SucceededChangesNothing(spec, objects, e, JobKey(store, Setup));
    SucceededChangesNothing(spec, objects, e, JobKey(store, Update));
  }

  lemma SucceededChangesNothing(spec: Spec, objects: Objects, e: StoreEnv, key: JobKey)
    ensures var r := EnsureSchemaJob(spec, objects, e, key);
            r.phase in {Some(JobSucceeded), Some(JobFailed), Some(JobRunning), None} ==> r.objects == objects
  {
  }

  /** What judging a store leaves behind: the version to record, and the objects. */
  lemma VerdictEffects(info: VersionInfo, spec: Spec, objects: Objects, env: Env, store: Store, cache: Cache)
    ensures var e := env.StoreEnvOf(store);
            var reading := ReadVersion(spec, e, store, cache);
            var setup := EnsureSchemaJob(spec, objects, e, JobKey(store, Setup));
            var update := EnsureSchemaJob(spec, objects, e, JobKey(store, Update));
            var r := JudgeStore(info, spec, objects, env, store, cache);
            && (r.version == if !reading.Version? then None
                             else if Reapplies(info, spec, e, store, reading) && e.second.Version? then Some(e.second.version)
                             else Some(reading.version))
            && (r.objects ==
                  if !NeedsJobs(info, spec, store, reading) then objects
                  else if !PastSetup(spec, objects, e, store, reading) then setup.objects
                  else if update.phase == Some(JobSucceeded) && !RefreshFails(objects, e, store) && store in objects.inspectors then
                    objects.(inspectors := objects.inspectors[store := objects.inspectors[store].(deleting := true)])
                  else update.objects)
  {
    hide EnsureSchemaJob, SchemaSatisfies, ReadVersion;
    var e := env.StoreEnvOf(store);
    SucceededChangesNothing(spec, objects, e, JobKey(store, Setup));
    SucceededChangesNothing(spec, objects, e, JobKey(store, Update));
  }

  function Recorded(versions: map<Store, string>, store: Store, version: Option<string>): map<Store, string> {
    if version.Some? then versions[store := version.value] else versions
  }

  /** The schema loop over the last store. */
  lemma LastStore(info: VersionInfo, spec: Spec, status: Status, objects: Objects, env: Env, store: Store, cache: Cache, migrating: bool)
    ensures var r := SchemaAll(info, spec, status, objects, env, [store], cache, migrating);
            var j := JudgeStore(info, spec, objects, env, store, cache);
            && (r.failed <==> j.verdict == Failed)
            && (!r.failed ==> (r.status.conditions.schemaReady <==> j.verdict == Done && !migrating))
            && r.objects == j.objects
            && r.status.schemaVersions == Recorded(status.schemaVersions, store, j.version)
  {
    hide ReconcileStoreSchema, MinSchemaFor;
    var j := JudgeStore(info, spec, objects, env, store, cache);
    var recorded := Record(status, store, j.version);
    assert [store][0] == store && [store][1..] == [];
    assert SchemaAll(info, spec, recorded, j.objects, env, [], cache, true) == Stage(SetSchemaReady(recorded, false), j.objects, false);
    match j.verdict {
      case Done =>
      case Failed =>
      case MigrationFailed =>
      case _ =>
    }
  }

  /** The schema loop over both stores. */
  ghost predicate BothJudged(info: VersionInfo, spec: Spec, status: Status, objects: Objects, env: Env, cache: Cache, r: Stage) {
    var first := JudgeStore(info, spec, objects, env, DefaultStore, cache);
    var second := JudgeStore(info, spec, first.objects, env, VisibilityStore, cache);
    var versions := Recorded(status.schemaVersions, DefaultStore, first.version);
    if first.verdict in {Failed, MigrationFailed} then
      && (r.failed <==> first.verdict == Failed)
      && (!r.failed ==> !r.status.conditions.schemaReady)
      && r.objects == first.objects && r.status.schemaVersions == versions
    else
      && (r.failed <==> second.verdict == Failed)
      && (!r.failed ==> (r.status.conditions.schemaReady <==> first.verdict == Done && second.verdict == Done))
      && r.objects == second.objects && r.status.schemaVersions == Recorded(versions, VisibilityStore, second.version)
  }

  lemma BothStores(info: VersionInfo, spec: Spec, status: Status, objects: Objects, env: Env, cache: Cache)
    ensures BothJudged(info, spec, status, objects, env, cache, SchemaAll(info, spec, status, objects, env, TARGETS, cache, false))
  {
    hide ReconcileStoreSchema, MinSchemaFor;
    assert TARGETS[1..] == [VisibilityStore];
    var first := JudgeStore(info, spec, objects, env, DefaultStore, cache);
    var recorded := Record(status, DefaultStore, first.version);
    LastStore(info, spec, recorded, first.objects, env, VisibilityStore, cache, first.verdict != Done);
  }

  /**
   The whole stage over reachable stores: the default store first, the visibility store unless
   the first one erred or its migration failed.  The schema condition is true exactly when both
   are done; the stage errs exactly when the version is unknown or a store it judged erred; and
   each judged store's version is recorded.
   */
  lemma StageExactly(matrix: Matrix, spec: Spec, status: Status, objects: Objects, env: Env)
    requires !(spec.workloadIdentity && env.serviceAccountFails)
    requires ReconcilePersistence(matrix, spec, status, objects, env).status.conditions.reachable
    ensures var probed := ProbeAll(spec, objects, env, TARGETS, map[]);
            var info := LookupVersion(matrix, spec.version);
            var r := ReconcilePersistence(matrix, spec, status, objects, env);
            if info.None? then r.failed && r.objects == probed.objects && r.status.schemaVersions == status.schemaVersions
            else BothJudged(info.value, spec, status, probed.objects, env, probed.cache, r)
  {
    hide ProbeAll, LookupVersion, SchemaAll, StoreAnswers, JudgeStore;
    var probed := ProbeAll(spec, objects, env, TARGETS, map[]);
    var info := LookupVersion(matrix, spec.version);
    ReachableExactly(matrix, spec, status, objects, env);
    ProbeBoth(spec, objects, env);
    if info.Some? { BothStores(info.value, spec, SetReachable(status, true), probed.objects, env, probed.cache); }
  }
}
