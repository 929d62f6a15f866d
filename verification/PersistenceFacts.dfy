/** What one run of the persistence stage guarantees about the conditions and Jobs it leaves behind. */
module PersistenceFacts {
  import opened Wrappers
  import opened SchemaVersions
  import opened Versions
  import opened ClusterTypes
  import opened Persistence

  // ----- probing -----

  /** The cache holds what the inspector pods answered. */
  ghost predicate CacheTrue(spec: Spec, objects: Objects, cache: Cache, store: Store) {
    && store in cache
    && FirstMessage(objects.PodsOf(store)) == Some(Answer(cache[store]))
    && cache[store].reachable
  }

  ghost predicate StoreProbed(spec: Spec, objects: Objects, env: Env, cache: Cache, store: Store) {
    if spec.Inspected(store) then CacheTrue(spec, objects, cache, store)
    else env.StoreEnvOf(store).probe == ProbeOk
  }

  lemma ProbeStoreProbes(spec: Spec, objects: Objects, env: Env, store: Store, cache: Cache)
    ensures var p := ProbeStore(spec, objects, env, store, cache);
            && (p.reachable ==> StoreProbed(spec, objects, env, p.cache, store))
            && (forall s :: s != store ==> (s in p.cache <==> s in cache) && (s in cache ==> p.cache[s] == cache[s]))
  {
  }

  lemma {:induction false} ProbeAllProbes(spec: Spec, objects: Objects, env: Env, targets: seq<Store>, cache: Cache)
    requires forall i, j :: 0 <= i < j < |targets| ==> targets[i] != targets[j]
    ensures var p := ProbeAll(spec, objects, env, targets, cache);
            && (p.reachable ==> forall s :: s in targets ==> StoreProbed(spec, objects, env, p.cache, s))
            && (p.reachable ==> forall s :: s !in targets && s in cache ==> s in p.cache && p.cache[s] == cache[s])
    decreases |targets|
  {
    hide ProbeStore, FirstMessage;
    if targets != [] {
      ProbeStoreProbes(spec, objects, env, targets[0], cache);
      var first := ProbeStore(spec, objects, env, targets[0], cache);
      if first.reachable {
        ProbeAllProbes(spec, first.objects, env, targets[1..], first.cache);
        var p := ProbeAll(spec, first.objects, env, targets[1..], first.cache);
        assert targets[0] !in targets[1..];
        forall s | p.reachable && s in targets ensures StoreProbed(spec, objects, env, p.cache, s) {
          assert s == targets[0] || s in targets[1..];
          assert first.objects.PodsOf(s) == objects.PodsOf(s);
        }
      }
    }
  }

  // ----- the schema loop -----

  /** The store's reading in this pass satisfies the minimum of `info`. */
  ghost predicate StoreSatisfied(info: VersionInfo, spec: Spec, env: Env, cache: Cache, store: Store) {
    exists v ::
      && (|| ReadVersion(spec, env.StoreEnvOf(store), store, cache) == Version(v)
          || (spec.StoreSpecOf(store).kind == Elasticsearch && env.StoreEnvOf(store).second == Version(v)))
      && SchemaSatisfies(v, MinSchemaFor(info, spec.StoreSpecOf(store).kind, store))
  }

  lemma DoneIsObserved(info: VersionInfo, spec: Spec, objects: Objects, env: Env, store: Store, cache: Cache)
    requires ReconcileStoreSchema(spec, objects, env.StoreEnvOf(store), store, cache,
                                  MinSchemaFor(info, spec.StoreSpecOf(store).kind, store)).verdict == Done
    ensures StoreSatisfied(info, spec, env, cache, store)
  {
    hide ReconcileJobSchema, SchemaSatisfies, MinSchemaFor;
    DoneNeedsNoJob(spec, objects, env.StoreEnvOf(store), store, "");
    forall current { DoneNeedsNoJob(spec, objects, env.StoreEnvOf(store), store, current); }
  }

  /** No Job outcome makes a store done. */
  lemma DoneNeedsNoJob(spec: Spec, objects: Objects, env: StoreEnv, store: Store, current: string)
    ensures ReconcileJobSchema(spec, objects, env, store, current).verdict != Done
  {
    hide EnsureSchemaJob, DeleteInspectorJob;
  }

  /** Only the schema condition and the recorded versions of a status may differ. */
  predicate OnlySchema(before: Status, after: Status) {
    after == before.(conditions := before.conditions.(schemaReady := after.conditions.schemaReady),
                     schemaVersions := after.schemaVersions)
  }

  lemma {:induction false} SchemaAllIsFresh(info: VersionInfo, spec: Spec, status: Status, objects: Objects, env: Env,
                                            targets: seq<Store>, cache: Cache, migrating: bool)
    ensures var r := SchemaAll(info, spec, status, objects, env, targets, cache, migrating);
            && OnlySchema(status, r.status)
            && (!r.failed && r.status.conditions.schemaReady ==>
                  !migrating && forall s :: s in targets ==> StoreSatisfied(info, spec, env, cache, s))
    decreases |targets|
  {
    hide ReconcileStoreSchema, MinSchemaFor, StoreSatisfied;
    if targets != [] {
      var store := targets[0];
      var r := ReconcileStoreSchema(spec, objects, env.StoreEnvOf(store), store, cache,
                                    MinSchemaFor(info, spec.StoreSpecOf(store).kind, store));
      var recorded := Record(status, store, r.version);
      assert forall s :: s in targets ==> s == store || s in targets[1..];
      match r.verdict {
        case Failed =>
        case MigrationFailed =>
        case Done =>
          DoneIsObserved(info, spec, objects, env, store, cache);
          SchemaAllIsFresh(info, spec, recorded, r.objects, env, targets[1..], cache, migrating);
        case _ =>
          SchemaAllIsFresh(info, spec, recorded, r.objects, env, targets[1..], cache, true);
      }
    }
  }

  lemma SatisfiedIsSeen(matrix: Matrix, spec: Spec, objects: Objects, env: Env, cache: Cache, store: Store)
    requires LookupVersion(matrix, spec.version).Some?
    requires StoreProbed(spec, objects, env, cache, store)
    requires StoreSatisfied(LookupVersion(matrix, spec.version).value, spec, env, cache, store)
    ensures SeenReadyFor(matrix, spec, objects, env, store, spec.version)
  {
    var info := LookupVersion(matrix, spec.version).value;
    var v :|
      && (|| ReadVersion(spec, env.StoreEnvOf(store), store, cache) == Version(v)
          || (spec.StoreSpecOf(store).kind == Elasticsearch && env.StoreEnvOf(store).second == Version(v)))
      && SchemaSatisfies(v, MinSchemaFor(info, spec.StoreSpecOf(store).kind, store));
    assert Reads(spec, objects, env, store, v);
  }

  lemma BothTargets(store: Store)
    ensures store in TARGETS
  {
    assert TARGETS[0] == DefaultStore && TARGETS[1] == VisibilityStore;
  }

  /** Only the two persistence conditions and the recorded versions of a status may differ. */
  predicate OnlyPersistence(before: Status, after: Status) {
    after == before.(conditions := before.conditions.(reachable := after.conditions.reachable,
                                                      schemaReady := after.conditions.schemaReady),
                     schemaVersions := after.schemaVersions)
  }

  /**
   A stage that returns no error has re-evaluated reachability.  When the stores were
   reachable it has also re-evaluated the schema condition against this spec; when they were
   not, the schema condition is whatever an earlier reconcile left there.
   */
  lemma PersistenceIsFresh(matrix: Matrix, spec: Spec, status: Status, objects: Objects, env: Env)
    ensures var r := ReconcilePersistence(matrix, spec, status, objects, env);
            && OnlyPersistence(status, r.status)
            && (!r.failed && r.status.conditions.reachable ==>
                  forall store :: SeenReachable(spec, objects, env, store))
            && (!r.failed && r.status.conditions.reachable && r.status.conditions.schemaReady ==>
                  AllSeenReadyFor(matrix, spec, objects, env, spec.version))
            && (!r.failed && !r.status.conditions.reachable ==>
                  r.status.conditions.schemaReady == status.conditions.schemaReady)
  {
    hide ProbeAll, SchemaAll, FirstMessage, LookupVersion, StoreSatisfied, SeenReadyFor;
    var probed := ProbeAll(spec, objects, env, TARGETS, map[]);
    ProbeAllProbes(spec, objects, env, TARGETS, map[]);
    var info := LookupVersion(matrix, spec.version);
    if !(spec.workloadIdentity && env.serviceAccountFails) && !env.targetsFail && probed.reachable && info.Some? {
      forall store ensures SeenReachable(spec, objects, env, store) {
        BothTargets(store);
        assert StoreProbed(spec, objects, env, probed.cache, store);
      }
      var reached := SetReachable(status, true);
      SchemaAllIsFresh(info.value, spec, reached, probed.objects, env, TARGETS, probed.cache, false);
      var r := SchemaAll(info.value, spec, reached, probed.objects, env, TARGETS, probed.cache, false);
      if !r.failed && r.status.conditions.schemaReady {
        forall store ensures SeenReadyFor(matrix, spec, objects, env, store, spec.version) {
          BothTargets(store);
          SatisfiedIsSeen(matrix, spec, objects, env, probed.cache, store);
        }
      }
    }
  }

  // ----- what is recorded -----

  /** The version the store was read at in this pass, when that reading is what made it done. */
  ghost predicate AcceptedReading(info: VersionInfo, spec: Spec, env: Env, cache: Cache, store: Store, v: string) {
    && (|| ReadVersion(spec, env.StoreEnvOf(store), store, cache) == Version(v)
        || (spec.StoreSpecOf(store).kind == Elasticsearch && env.StoreEnvOf(store).second == Version(v)))
    && SchemaSatisfies(v, MinSchemaFor(info, spec.StoreSpecOf(store).kind, store))
  }

  lemma DoneIsRecorded(info: VersionInfo, spec: Spec, objects: Objects, env: Env, store: Store, cache: Cache)
    ensures var r := ReconcileStoreSchema(spec, objects, env.StoreEnvOf(store), store, cache,
                                          MinSchemaFor(info, spec.StoreSpecOf(store).kind, store));
            r.verdict == Done ==> r.version.Some? && AcceptedReading(info, spec, env, cache, store, r.version.value)
  {
    hide ReconcileJobSchema, SchemaSatisfies, MinSchemaFor;
    forall current { DoneNeedsNoJob(spec, objects, env.StoreEnvOf(store), store, current); }
  }

  /** The store's recorded version is the same in both, or absent from both. */
  predicate SameRecorded(before: Status, after: Status, store: Store) {
    && (store in before.schemaVersions <==> store in after.schemaVersions)
    && (store in before.schemaVersions ==> after.schemaVersions[store] == before.schemaVersions[store])
  }

  lemma {:induction false} SchemaAllLeavesOthers(info: VersionInfo, spec: Spec, status: Status, objects: Objects, env: Env,
                                                 targets: seq<Store>, cache: Cache, migrating: bool, store: Store)
    requires store !in targets
    ensures SameRecorded(status, SchemaAll(info, spec, status, objects, env, targets, cache, migrating).status, store)
    decreases |targets|
  {
    hide ReconcileStoreSchema, MinSchemaFor;
    if targets != [] {
      var first := targets[0];
      var r := ReconcileStoreSchema(spec, objects, env.StoreEnvOf(first), first, cache,
                                    MinSchemaFor(info, spec.StoreSpecOf(first).kind, first));
      var recorded := Record(status, first, r.version);
      assert SameRecorded(status, recorded, store);
      hide Record;
      match r.verdict {
        case Failed =>
        case MigrationFailed =>
        case Done => SchemaAllLeavesOthers(info, spec, recorded, r.objects, env, targets[1..], cache, migrating, store);
        case _ => SchemaAllLeavesOthers(info, spec, recorded, r.objects, env, targets[1..], cache, true, store);
      }
    }
  }

  /** A schema loop that ends with the condition true has recorded, for each of its stores, the reading it accepted. */
  lemma {:induction false} SchemaAllRecords(info: VersionInfo, spec: Spec, status: Status, objects: Objects, env: Env,
                                            targets: seq<Store>, cache: Cache, store: Store)
    requires forall i, j :: 0 <= i < j < |targets| ==> targets[i] != targets[j]
    requires store in targets
    ensures var r := SchemaAll(info, spec, status, objects, env, targets, cache, false);
            !r.failed && r.status.conditions.schemaReady ==>
              && store in r.status.schemaVersions
              && AcceptedReading(info, spec, env, cache, store, r.status.schemaVersions[store])
    decreases |targets|
  {
    hide ReconcileStoreSchema, MinSchemaFor, AcceptedReading, StoreSatisfied;
    var first, rest := targets[0], targets[1..];
    var r := ReconcileStoreSchema(spec, objects, env.StoreEnvOf(first), first, cache,
                                  MinSchemaFor(info, spec.StoreSpecOf(first).kind, first));
    var recorded := Record(status, first, r.version);
    match r.verdict {
      case Failed =>
      case MigrationFailed =>
      case Done =>
        DoneIsRecorded(info, spec, objects, env, first, cache);
        if store == first {
          SchemaAllLeavesOthers(info, spec, recorded, r.objects, env, rest, cache, false, store);
        } else {
          SchemaAllRecords(info, spec, recorded, r.objects, env, rest, cache, store);
        }
      case _ =>
        SchemaAllIsFresh(info, spec, recorded, r.objects, env, rest, cache, true);
    }
  }

  /**
   What the stage leaves in the recorded versions: for stores it reached and found ready, the
   very reading it accepted; for stores it could not reach, what was there before.
   */
  lemma PersistenceRecords(matrix: Matrix, spec: Spec, status: Status, objects: Objects, env: Env, store: Store)
    ensures var r := ReconcilePersistence(matrix, spec, status, objects, env);
            && (!r.failed && r.status.conditions.reachable && r.status.conditions.schemaReady ==>
                  && LookupVersion(matrix, spec.version).Some? && store in r.status.schemaVersions
                  && Reads(spec, objects, env, store, r.status.schemaVersions[store])
                  && SchemaSatisfies(r.status.schemaVersions[store],
                       MinSchemaFor(LookupVersion(matrix, spec.version).value, spec.StoreSpecOf(store).kind, store)))
            && (!r.failed && !r.status.conditions.reachable ==> r.status.schemaVersions == status.schemaVersions)
  {
    hide ProbeAll, SchemaAll, FirstMessage, LookupVersion, MinSchemaFor, SchemaSatisfies;
    var probed := ProbeAll(spec, objects, env, TARGETS, map[]);
    ProbeAllProbes(spec, objects, env, TARGETS, map[]);
    var info := LookupVersion(matrix, spec.version);
    if !(spec.workloadIdentity && env.serviceAccountFails) && !env.targetsFail && probed.reachable && info.Some? {
      BothTargets(store);
      assert StoreProbed(spec, objects, env, probed.cache, store);
      var reached := SetReachable(status, true);
      SchemaAllIsFresh(info.value, spec, reached, probed.objects, env, TARGETS, probed.cache, false);
      SchemaAllRecords(info.value, spec, reached, probed.objects, env, TARGETS, probed.cache, store);
    }
  }

  // ----- which Jobs count -----

  /** The Job runs this version's schema tool, is not on its way out, and ended as `phase`. */
  predicate EndedAs(spec: Spec, job: Job, phase: JobPhase) {
    && !job.deleting
    && ImageOf(job.containers, SCHEMA_CONTAINER) == Some(AdminToolsImage(spec.version))
    && Ending(job.conditions) == Some(phase)
  }

  predicate HasEnded(spec: Spec, jobs: map<JobKey, Job>, key: JobKey, phase: JobPhase) {
    key in jobs && EndedAs(spec, jobs[key], phase)
  }

  lemma EndingIsFinal(conditions: seq<JobCondition>)
    ensures Ending(conditions) in {None, Some(JobSucceeded), Some(JobFailed)}
  {
  }

  /** A schema Job's end counts exactly when it ran this version's image and is not being deleted. */
  lemma OnlyCurrentJobsCount(spec: Spec, objects: Objects, env: StoreEnv, key: JobKey, phase: JobPhase)
    requires phase in {JobSucceeded, JobFailed}
    ensures EnsureSchemaJob(spec, objects, env, key).phase == Some(phase)
       <==> !env.JobApi(key.action).getFails && HasEnded(spec, objects.schemaJobs, key, phase)
  {
    hide ImageOf, AdminToolsImage;
    if key in objects.schemaJobs {
      EndingIsFinal(objects.schemaJobs[key].conditions);
    }
  }

  /** The Job's pod template leaves the generated image in place; a template is ignored under workload identity. */
  predicate SchemaImageHarmless(spec: Spec) {
    spec.workloadIdentity || spec.schemaImage in {None, Some(AdminToolsImage(spec.version))}
  }

  /**
   A finished schema Job that the operator itself built for this spec counts exactly when the
   user's Job template leaves the generated image in place; otherwise the operator deletes it
   again, so a store that needs it never provisions.
   */
  lemma BuiltJobCountsExactly(spec: Spec, objects: Objects, env: StoreEnv, key: JobKey)
    requires key in objects.schemaJobs && env.JobApi(key.action) == Api(false, false, false, false)
    requires var job := objects.schemaJobs[key];
             job.containers == BuildSchemaJob(spec, key.store).containers && JobIsTerminal(job) && !job.deleting
    ensures var r := EnsureSchemaJob(spec, objects, env, key);
            && (r.phase in {Some(JobSucceeded), Some(JobFailed)} <==> SchemaImageHarmless(spec))
            && (!SchemaImageHarmless(spec) <==> r.objects.schemaJobs[key].deleting)
  {
    hide AdminToolsImage;
    EndingIsFinal(objects.schemaJobs[key].conditions);
  }

  /** An update Job may be created for the store: it has a schema already, or its setup Job is seen succeeded. */
  ghost predicate UpdateJustified(spec: Spec, env: Env, cache: Cache, store: Store, jobs: map<JobKey, Job>) {
    || (exists v :: v != "" && ReadVersion(spec, env.StoreEnvOf(store), store, cache) == Version(v))
    || HasEnded(spec, jobs, JobKey(store, Setup), JobSucceeded)
  }

  /** Jobs of other stores are left alone. */
  ghost predicate OtherStoresKept(store: Store, before: map<JobKey, Job>, after: map<JobKey, Job>) {
    forall k: JobKey :: k.store != store ==> (k in before <==> k in after) && (k in before ==> before[k] == after[k])
  }

  /** All Jobs but the given one are left alone. */
  ghost predicate OthersKept(key: JobKey, before: map<JobKey, Job>, after: map<JobKey, Job>) {
    forall k :: k != key ==> (k in before <==> k in after) && (k in before ==> before[k] == after[k])
  }

  lemma SchemaJobFrame(spec: Spec, objects: Objects, env: StoreEnv, key: JobKey)
    ensures OthersKept(key, objects.schemaJobs, EnsureSchemaJob(spec, objects, env, key).objects.schemaJobs)
  {
  }

  lemma UpdateJobStep(spec: Spec, objects: Objects, env: StoreEnv, store: Store, current: string)
    ensures var r := RunUpdateJob(spec, objects, env, store, current);
            && OthersKept(JobKey(store, Update), objects.schemaJobs, r.objects.schemaJobs)
            && (r.verdict == MigrationFailed ==> HasEnded(spec, objects.schemaJobs, JobKey(store, Update), JobFailed))
  {
    hide EnsureSchemaJob, EndedAs;
    SchemaJobFrame(spec, objects, env, JobKey(store, Update));
    OnlyCurrentJobsCount(spec, objects, env, JobKey(store, Update), JobFailed);
  }

  lemma JobSchemaIsOrdered(spec: Spec, objects: Objects, env: StoreEnv, store: Store, current: string)
    ensures var r := ReconcileJobSchema(spec, objects, env, store, current);
            && OtherStoresKept(store, objects.schemaJobs, r.objects.schemaJobs)
            && (JobKey(store, Update) !in objects.schemaJobs && JobKey(store, Update) in r.objects.schemaJobs ==>
                  current != "" || HasEnded(spec, objects.schemaJobs, JobKey(store, Setup), JobSucceeded))
            && (r.verdict == MigrationFailed ==>
                  || HasEnded(spec, objects.schemaJobs, JobKey(store, Setup), JobFailed)
                  || HasEnded(spec, objects.schemaJobs, JobKey(store, Update), JobFailed))
  {
    hide EnsureSchemaJob, RunUpdateJob, EndedAs;
    var setupKey := JobKey(store, Setup);
    if current == "" {
      SchemaJobFrame(spec, objects, env, setupKey);
      OnlyCurrentJobsCount(spec, objects, env, setupKey, JobSucceeded);
      OnlyCurrentJobsCount(spec, objects, env, setupKey, JobFailed);
      UpdateJobStep(spec, EnsureSchemaJob(spec, objects, env, setupKey).objects, env, store, current);
    } else {
      UpdateJobStep(spec, objects, env, store, current);
    }
  }

  lemma StoreSchemaIsOrdered(spec: Spec, objects: Objects, env: Env, store: Store, cache: Cache, minSchema: string)
    ensures var r := ReconcileStoreSchema(spec, objects, env.StoreEnvOf(store), store, cache, minSchema);
            && OtherStoresKept(store, objects.schemaJobs, r.objects.schemaJobs)
            && (JobKey(store, Update) !in objects.schemaJobs && JobKey(store, Update) in r.objects.schemaJobs ==>
                  UpdateJustified(spec, env, cache, store, objects.schemaJobs))
            && (r.verdict == MigrationFailed ==>
                  || HasEnded(spec, objects.schemaJobs, JobKey(store, Setup), JobFailed)
                  || HasEnded(spec, objects.schemaJobs, JobKey(store, Update), JobFailed))
  {
    hide ReconcileJobSchema, ReadVersion, SchemaSatisfies, HasEnded;
    var reading := ReadVersion(spec, env.StoreEnvOf(store), store, cache);
    if reading.Version? {
      JobSchemaIsOrdered(spec, objects, env.StoreEnvOf(store), store, reading.version);
    }
  }

  /** What justifies an update of one store is not affected by reconciling another. */
  lemma JustifiedEarlier(spec: Spec, env: Env, cache: Cache, store: Store, other: Store,
                         before: map<JobKey, Job>, after: map<JobKey, Job>)
    requires store != other && OtherStoresKept(other, before, after)
    ensures JobKey(store, Update) in before <==> JobKey(store, Update) in after
    ensures UpdateJustified(spec, env, cache, store, after) ==> UpdateJustified(spec, env, cache, store, before)
  {
    hide ReadVersion, EndedAs;
  }

  lemma {:induction false} SchemaAllIsOrdered(info: VersionInfo, spec: Spec, status: Status, objects: Objects, env: Env,
                                              targets: seq<Store>, cache: Cache, migrating: bool, store: Store)
    requires forall i, j :: 0 <= i < j < |targets| ==> targets[i] != targets[j]
    ensures var r := SchemaAll(info, spec, status, objects, env, targets, cache, migrating);
            var key := JobKey(store, Update);
            key !in objects.schemaJobs && key in r.objects.schemaJobs ==>
              store in targets && UpdateJustified(spec, env, cache, store, objects.schemaJobs)
    decreases |targets|
  {
    hide ReconcileStoreSchema, MinSchemaFor, SetSchemaReady, Record, UpdateJustified;
    if targets != [] {
      var first := targets[0];
      var minSchema := MinSchemaFor(info, spec.StoreSpecOf(first).kind, first);
      var r := ReconcileStoreSchema(spec, objects, env.StoreEnvOf(first), first, cache, minSchema);
      StoreSchemaIsOrdered(spec, objects, env, first, cache, minSchema);
      var recorded := Record(status, first, r.version);
      SchemaAllIsOrdered(info, spec, recorded, r.objects, env, targets[1..], cache, migrating, store);
      SchemaAllIsOrdered(info, spec, recorded, r.objects, env, targets[1..], cache, true, store);
      assert first !in targets[1..];
      if store != first { JustifiedEarlier(spec, env, cache, store, first, objects.schemaJobs, r.objects.schemaJobs); }
    }
  }

  /**
   Over the whole stage: a store gets an update Job only when it was read with a schema
   already in place, or when its setup Job, running this version's image and not being
   deleted, was found succeeded at the start of the pass.
   */
  lemma UpdateWaitsForSetup(matrix: Matrix, spec: Spec, status: Status, objects: Objects, env: Env, store: Store)
    requires JobKey(store, Update) !in objects.schemaJobs
    requires JobKey(store, Update) in ReconcilePersistence(matrix, spec, status, objects, env).objects.schemaJobs
    ensures || (exists v :: v != "" && Reads(spec, objects, env, store, v))
            || HasEnded(spec, objects.schemaJobs, JobKey(store, Setup), JobSucceeded)
  {
    hide ProbeAll, SchemaAll, FirstMessage, LookupVersion, EndedAs;
    var probed := ProbeAll(spec, objects, env, TARGETS, map[]);
    ProbeAllProbes(spec, objects, env, TARGETS, map[]);
    var info := LookupVersion(matrix, spec.version).value;
    SchemaAllIsOrdered(info, spec, SetReachable(status, true), probed.objects, env, TARGETS, probed.cache, false, store);
    BothTargets(store);
    assert StoreProbed(spec, objects, env, probed.cache, store);
    if exists v :: v != "" && ReadVersion(spec, env.StoreEnvOf(store), store, probed.cache) == Version(v) {
      var v :| v != "" && ReadVersion(spec, env.StoreEnvOf(store), store, probed.cache) == Version(v);
      assert Reads(spec, objects, env, store, v);
    }
  }
}
