/**
 Provisioning the stores (`reconcilePersistence` and what it calls in
 internal/controller/temporalcluster_persistence.go): from any state of the schema Jobs, the
 inspectors and the databases of both stores, a cluster that runs Jobs to success and removes
 deleted and failed ones leads to a pass that finds every schema ready; and what keeps a store
 from getting there.
 */
module ProvisioningProgress {
  import opened Wrappers
  import opened SchemaVersions
  import opened Versions
  import opened ClusterTypes
  import opened Persistence
  import opened PersistenceFacts

  // ----- how far a store is -----

  predicate Current(spec: Spec, job: Job) {
    ImageOf(job.containers, SCHEMA_CONTAINER) == Some(AdminToolsImage(spec.version))
  }

  /** Steps to a success that counts: finish; be created; be removed, when deleted or failed; be found outdated. */
  function Distance(spec: Spec, objects: Objects, key: JobKey): nat {
    if key !in objects.schemaJobs then 2
    else
      var job := objects.schemaJobs[key];
      if job.deleting then 3
      else if !Current(spec, job) then 4
      else if Ending(job.conditions) == Some(JobFailed) then 3
      else if Ending(job.conditions) == Some(JobSucceeded) then 0
      else 1
  }

  /** The version a pass would read: a direct store's own, an inspected one's readable answer. */
  function Readable(spec: Spec, objects: Objects, store: Store, v: string): Option<string> {
    if !spec.Inspected(store) then Some(v)
    else if store in objects.inspectors && objects.inspectors[store].deleting then None
    else
      match FirstMessage(objects.PodsOf(store))
      case Some(Answer(result)) => if result.reachable then Some(result.version) else None
      case _ => None
  }

  /** Steps to a readable answer: finish; be created; be removed, when deleted or unreadable; be found spent. */
  function InspectorDistance(spec: Spec, objects: Objects, store: Store): nat {
    if Readable(spec, objects, store, "").Some? then 0
    else if store !in objects.inspectors then if FirstMessage(objects.PodsOf(store)).None? then 2 else 3
    else if objects.inspectors[store].deleting || FirstMessage(objects.PodsOf(store)).Some? then 3
    else if JobIsTerminal(objects.inspectors[store]) then 4
    else 1
  }

  /** How far one store is: what a pass would read, and the distances of its inspector and its schema Jobs. */
  datatype Progress = Progress(readable: Option<string>, inspector: nat, update: nat, setup: nat) {
    predicate Valid() {
      && (readable.Some? <==> inspector == 0)
      && inspector <= 4 && update <= 4 && setup <= 4
    }
  }

  function ProgressOf(spec: Spec, objects: Objects, store: Store, v: string): (p: Progress)
    ensures p.Valid()
  {
    Progress(Readable(spec, objects, store, v), InspectorDistance(spec, objects, store),
             Distance(spec, objects, JobKey(store, Update)), Distance(spec, objects, JobKey(store, Setup)))
  }

  predicate Ready(p: Progress, minSchema: string) {
    p.readable.Some? && SchemaSatisfies(p.readable.value, minSchema)
  }

  /** What is left to do: an answer, the setup of an empty database, the update, and a fresh answer after it. */
  function Work(p: Progress, minSchema: string): nat {
    if Ready(p, minSchema) then 0
    else if p.update == 0 then
      if p.readable.None? then p.inspector else 5 + if p.readable.value == "" then p.setup else 0
    else 6 + p.inspector + p.update + if p.readable.None? || p.readable.value == "" then p.setup else 0
  }

  lemma WorkIsBounded(p: Progress, minSchema: string)
    requires p.Valid()
    ensures Work(p, minSchema) <= 18
  {
    hide SchemaSatisfies;
  }

  // ----- what is due, and what a pass does, to one store -----

  /** Nothing moves away, running Jobs succeed, and deleted, failed and unreadable ones are removed. */
  predicate Comes(d: nat, e: nat) {
    e <= d && (d == 3 ==> e <= 2) && (d == 1 ==> e == 0)
  }

  /**
   What is due for a store happens, and leaves its database at `v`.  What can be read stays
   readable or becomes what the database holds, which is no worse; an update that succeeded
   left a schema that satisfies.
   */
  predicate DueStep(p: Progress, q: Progress, v: string, minSchema: string) {
    && Comes(p.inspector, q.inspector) && Comes(p.update, q.update) && Comes(p.setup, q.setup)
    && (|| q.readable == p.readable
        || (&& q.readable == Some(v)
            && (p.readable.Some? && p.readable.value != "" ==> v != "")
            && (Ready(p, minSchema) ==> SchemaSatisfies(v, minSchema))))
    && (q.update == 0 ==> SchemaSatisfies(v, minSchema))
  }

  lemma DueNeverAdds(p: Progress, q: Progress, v: string, minSchema: string)
    requires p.Valid() && q.Valid() && DueStep(p, q, v, minSchema)
    ensures Work(q, minSchema) <= Work(p, minSchema)
  {
    hide SchemaSatisfies;
  }

  /** What an ensure-call does to a distance. */
  function Moved(d: nat): nat {
    if d in {2, 4} then d - 1 else d
  }

  /** What probing a silent store does to it. */
  function ProbeMoves(p: Progress): Progress {
    p.(inspector := Moved(p.inspector))
  }

  lemma SilentAdvances(p: Progress, q: Progress, v: string, minSchema: string)
    requires p.Valid() && q.Valid() && DueStep(p, q, v, minSchema) && q.readable.None?
    ensures Work(ProbeMoves(q), minSchema) < Work(p, minSchema)
  {
    hide SchemaSatisfies;
  }

  /** What the schema step does to a store that was read below its minimum. */
  function SchemaMoves(p: Progress): Progress
    requires p.readable.Some?
  {
    if p.readable.value == "" && p.setup > 0 then p.(setup := Moved(p.setup))
    else if p.update > 0 then p.(update := Moved(p.update))
    else p.(readable := None, inspector := 3)
  }

  lemma ReadAdvances(p: Progress, q: Progress, v: string, minSchema: string)
    requires p.Valid() && q.Valid() && DueStep(p, q, v, minSchema) && q.readable.Some? && !Ready(q, minSchema)
    ensures Work(SchemaMoves(q), minSchema) < Work(p, minSchema)
  {
    hide SchemaSatisfies;
  }

  // ----- what a clean pass does to the objects -----

  const CLEAN := Api(false, false, false, false)

  /** No call made for the store fails, and a direct read reports what the database holds. */
  predicate CleanStore(spec: Spec, env: StoreEnv, store: Store, v: string) {
    && env.inspector == CLEAN && !env.podListFails && env.setup == CLEAN && env.update == CLEAN && env.refresh == CLEAN
    && (!spec.Inspected(store) ==> env.probe == ProbeOk && env.first == Version(v))
  }

  /** No current Job of the store has failed. */
  predicate NoneFailed(spec: Spec, objects: Objects, store: Store) {
    forall key :: key in objects.schemaJobs && key.store == store ==> !EndedAs(spec, objects.schemaJobs[key], JobFailed)
  }

  /** The parts of the objects that belong to a store are the same. */
  ghost predicate SameStore(a: Objects, b: Objects, store: Store) {
    && a.PodsOf(store) == b.PodsOf(store)
    && (store in a.inspectors <==> store in b.inspectors)
    && (store in a.inspectors ==> a.inspectors[store] == b.inspectors[store])
    && (forall key: JobKey :: key.store == store ==>
          (key in a.schemaJobs <==> key in b.schemaJobs) && (key in a.schemaJobs ==> a.schemaJobs[key] == b.schemaJobs[key]))
  }

  lemma SameStoreSameProgress(spec: Spec, a: Objects, b: Objects, store: Store, v: string)
    requires SameStore(a, b, store)
    ensures ProgressOf(spec, a, store, v) == ProgressOf(spec, b, store, v)
    ensures NoneFailed(spec, a, store) <==> NoneFailed(spec, b, store)
  {
    hide FirstMessage, Current;
  }

  /** The inspection of a store, answered or not. */
  lemma InspectionMoves(spec: Spec, objects: Objects, env: StoreEnv, store: Store, v: string)
    requires spec.Inspected(store) && CleanStore(spec, env, store, v)
    ensures var i := InspectOnce(spec, objects, env, store);
            var p := ProgressOf(spec, objects, store, v);
            && (i.inspection.Answered? && i.inspection.result.reachable <==> p.readable.Some?)
            && (p.readable.Some? ==> p.readable == Some(i.inspection.result.version))
            && Readable(spec, i.objects, store, v) == p.readable
            && InspectorDistance(spec, i.objects, store) == Moved(p.inspector)
  {
    hide FirstMessage, JobIsTerminal;
    BuiltIsRunning(spec, store);
  }

  lemma BuiltIsRunning(spec: Spec, store: Store)
    ensures !JobIsTerminal(BuildInspectorJob(spec, store)) && !BuildInspectorJob(spec, store).deleting
  {
  }

  lemma InspectionFrame(spec: Spec, objects: Objects, env: StoreEnv, store: Store, other: Store)
    requires other != store
    ensures SameStore(objects, InspectOnce(spec, objects, env, store).objects, other)
  {
    InspectionTouches(spec, objects, env, store, other);
    hide InspectOnce;
  }

  /** An inspection changes no inspector but the store's own. */
  lemma InspectionTouches(spec: Spec, objects: Objects, env: StoreEnv, store: Store, other: Store)
    requires other != store
    ensures var after := InspectOnce(spec, objects, env, store).objects.inspectors;
            && (other in objects.inspectors <==> other in after)
            && (other in objects.inspectors ==> after[other] == objects.inspectors[other])
  {
    hide FirstMessage, JobIsTerminal;
  }

  /** Probing a store: it answers exactly when it is readable, and a silent one comes closer to an answer. */
  lemma ProbeAdvances(spec: Spec, objects: Objects, env: Env, store: Store, cache: Cache, v: string)
    requires CleanStore(spec, env.StoreEnvOf(store), store, v)
    ensures var p := ProgressOf(spec, objects, store, v);
            var r := ProbeStore(spec, objects, env, store, cache);
            && (r.reachable <==> p.readable.Some?)
            && ProgressOf(spec, r.objects, store, v) == (if p.readable.Some? then p else ProbeMoves(p))
            && (p.readable.Some? ==> ReadVersion(spec, env.StoreEnvOf(store), store, r.cache) == Version(p.readable.value))
            && (forall other :: other != store ==>
                  && SameStore(objects, r.objects, other)
                  && (other in cache ==> other in r.cache && r.cache[other] == cache[other]))
            && r.objects.schemaJobs == objects.schemaJobs
  {
    hide InspectOnce, Readable, InspectorDistance, Distance, SameStore;
    if spec.Inspected(store) {
      InspectionMoves(spec, objects, env.StoreEnvOf(store), store, v);
      forall other | other != store ensures SameStore(objects, InspectOnce(spec, objects, env.StoreEnvOf(store), store).objects, other) {
        InspectionFrame(spec, objects, env.StoreEnvOf(store), store, other);
      }
      DistanceDepends(spec, objects, InspectOnce(spec, objects, env.StoreEnvOf(store), store).objects);
    } else {
      assert Readable(spec, objects, store, v) == Some(v) by { DirectIsReadable(spec, objects, store, v); }
      forall other ensures SameStore(objects, objects, other) { SameAsItself(objects, other); }
    }
  }

  lemma DistanceDepends(spec: Spec, a: Objects, b: Objects)
    requires a.schemaJobs == b.schemaJobs
    ensures forall key :: Distance(spec, a, key) == Distance(spec, b, key)
  {
    hide Current;
  }

  lemma DirectIsReadable(spec: Spec, objects: Objects, store: Store, v: string)
    requires !spec.Inspected(store)
    ensures Readable(spec, objects, store, v) == Some(v)
  {
  }

  lemma SameAsItself(objects: Objects, store: Store)
    ensures SameStore(objects, objects, store)
  {
  }

  /** A clean ensure-call moves its own Job one step on, and reports success exactly at the end of the way. */
  lemma EnsureMoves(spec: Spec, objects: Objects, env: StoreEnv, key: JobKey)
    requires env.JobApi(key.action) == CLEAN && SchemaImageHarmless(spec) && NoneFailed(spec, objects, key.store)
    ensures var r := EnsureSchemaJob(spec, objects, env, key);
            var d := Distance(spec, objects, key);
            && r.phase.Some? && r.phase.value != JobFailed && (r.phase.value == JobSucceeded <==> d == 0)
            && Distance(spec, r.objects, key) == Moved(d) && (d == 0 ==> r.objects == objects)
            && (forall other: JobKey :: other != key ==> Distance(spec, r.objects, other) == Distance(spec, objects, other))
            && r.objects.inspectors == objects.inspectors && r.objects.pods == objects.pods
            && (forall other: Store :: other != key.store ==> SameStore(objects, r.objects, other))
  {
    hide AdminToolsImage;
    if key in objects.schemaJobs { EndingIsFinal(objects.schemaJobs[key].conditions); }
  }

  lemma ReadableDepends(spec: Spec, a: Objects, b: Objects, store: Store, v: string)
    requires a.inspectors == b.inspectors && a.pods == b.pods
    ensures Readable(spec, a, store, v) == Readable(spec, b, store, v)
    ensures InspectorDistance(spec, a, store) == InspectorDistance(spec, b, store)
  {
    hide FirstMessage, JobIsTerminal;
  }

  /** The refresh of an inspected store whose Job is there makes it unreadable, one removal away from a fresh Job. */
  lemma RefreshMoves(spec: Spec, objects: Objects, api: Api, store: Store, v: string)
    requires api == CLEAN && spec.Inspected(store) && store in objects.inspectors
    ensures var r := DeleteInspectorJob(objects, api, store);
            && r.Some? && r.value.schemaJobs == objects.schemaJobs
            && Readable(spec, r.value, store, v) == None && InspectorDistance(spec, r.value, store) == 3
            && (forall other :: other != store ==> SameStore(objects, r.value, other))
  {
    hide FirstMessage, JobIsTerminal;
  }

  /** The update step of a store: its Job moves on, or, once it has succeeded, the inspector is refreshed. */
  lemma UpdateMoves(spec: Spec, objects: Objects, env: StoreEnv, store: Store, current: string, v: string)
    requires CleanStore(spec, env, store, v) && SchemaImageHarmless(spec) && NoneFailed(spec, objects, store)
    requires Readable(spec, objects, store, v) == Some(current)
    requires if spec.Inspected(store) then store in objects.inspectors else Distance(spec, objects, JobKey(store, Update)) > 0
    ensures var r := RunUpdateJob(spec, objects, env, store, current);
            var p := ProgressOf(spec, objects, store, v);
            && r.verdict == Migrating
            && ProgressOf(spec, r.objects, store, v)
               == (if p.update > 0 then p.(update := Moved(p.update)) else p.(readable := None, inspector := 3))
            && (forall other :: other != store ==> SameStore(objects, r.objects, other))
  {
    hide EnsureSchemaJob, DeleteInspectorJob, Readable, InspectorDistance, Distance, SameStore, NoneFailed, SchemaImageHarmless;
    var key := JobKey(store, Update);
    EnsureMoves(spec, objects, env, key);
    var u := EnsureSchemaJob(spec, objects, env, key);
    ReadableDepends(spec, objects, u.objects, store, v);
    if Distance(spec, objects, key) == 0 {
      RefreshMoves(spec, u.objects, env.refresh, store, v);
      DistanceDepends(spec, u.objects, DeleteInspectorJob(u.objects, env.refresh, store).value);
    }
  }

  /** The schema step of a store that was read: done exactly when what was read satisfies, else it moves on. */
  lemma SchemaAdvances(spec: Spec, objects: Objects, env: StoreEnv, store: Store, cache: Cache, v: string, minSchema: string)
    requires CleanStore(spec, env, store, v) && SchemaImageHarmless(spec) && NoneFailed(spec, objects, store)
    requires spec.StoreSpecOf(store).kind != Elasticsearch
    requires var p := ProgressOf(spec, objects, store, v);
             && p.readable.Some? && ReadVersion(spec, env, store, cache) == Version(p.readable.value)
             && (if spec.Inspected(store) then store in objects.inspectors else Ready(p, minSchema) || p.update > 0)
    ensures var p := ProgressOf(spec, objects, store, v);
            var r := ReconcileStoreSchema(spec, objects, env, store, cache, minSchema);
            && r.verdict == (if Ready(p, minSchema) then Done else Migrating)
            && ProgressOf(spec, r.objects, store, v) == (if Ready(p, minSchema) then p else SchemaMoves(p))
            && (forall other :: other != store ==> SameStore(objects, r.objects, other))
  {
    hide SchemaSatisfies, EnsureSchemaJob, RunUpdateJob, Readable, InspectorDistance, Distance, SameStore, NoneFailed,
         SchemaImageHarmless, ReadVersion;
    var p := ProgressOf(spec, objects, store, v);
    forall other { SameAsItself(objects, other); }
    if !Ready(p, minSchema) {
      var current := p.readable.value;
      if current == "" {
        var setup := EnsureSchemaJob(spec, objects, env, JobKey(store, Setup));
        EnsureMoves(spec, objects, env, JobKey(store, Setup));
        ReadableDepends(spec, objects, setup.objects, store, v);
      }
      if current != "" || p.setup == 0 { UpdateMoves(spec, objects, env, store, current, v); }
    }
  }

  // ----- the whole stage -----

  /** What the databases of the two stores hold. */
  datatype Contents = Contents(main: string, visibility: string) {
    function Of(store: Store): string {
      if store == DefaultStore then main else visibility
    }
  }

  /** A round starts from `before` and `v0`; what is due leads to `during` and `v`, which a pass finds. */
  datatype Round = Round(before: Objects, v0: Contents, during: Objects, v: Contents, status: Status, env: Env)

  function MinFor(info: VersionInfo, spec: Spec, store: Store): string {
    MinSchemaFor(info, spec.StoreSpecOf(store).kind, store)
  }

  /** The work left for a store; the operator applies an Elasticsearch schema within the pass. */
  function WorkOf(info: VersionInfo, spec: Spec, objects: Objects, v: Contents, store: Store): nat {
    if spec.StoreSpecOf(store).kind == Elasticsearch then 0
    else Work(ProgressOf(spec, objects, store, v.Of(store)), MinFor(info, spec, store))
  }

  function TotalWork(info: VersionInfo, spec: Spec, objects: Objects, v: Contents): nat {
    WorkOf(info, spec, objects, v, DefaultStore) + WorkOf(info, spec, objects, v, VisibilityStore)
  }

  /** What is due for a store has happened in the round. */
  predicate StoreDue(info: VersionInfo, spec: Spec, r: Round, store: Store) {
    && DueStep(ProgressOf(spec, r.before, store, r.v0.Of(store)), ProgressOf(spec, r.during, store, r.v.Of(store)),
               r.v.Of(store), MinFor(info, spec, store))
    && NoneFailed(spec, r.during, store)
  }

  predicate DueDone(info: VersionInfo, spec: Spec, r: Round) {
    forall store :: StoreDue(info, spec, r, store)
  }

  /** An Elasticsearch store is read, and its schema, if it has to be applied, takes. */
  predicate CleanIndex(env: StoreEnv, minSchema: string) {
    && env.probe == ProbeOk && env.first.Version?
    && (SchemaSatisfies(env.first.version, minSchema)
        || (!env.applyFails && env.second.Version? && SchemaSatisfies(env.second.version, minSchema)))
  }

  predicate CleanFor(info: VersionInfo, spec: Spec, r: Round, store: Store) {
    if spec.StoreSpecOf(store).kind == Elasticsearch then CleanIndex(r.env.StoreEnvOf(store), MinFor(info, spec, store))
    else CleanStore(spec, r.env.StoreEnvOf(store), store, r.v.Of(store))
  }

  /** No call of the pass fails. */
  predicate Clean(info: VersionInfo, spec: Spec, r: Round) {
    !r.env.serviceAccountFails && !r.env.targetsFail && forall store :: CleanFor(info, spec, r, store)
  }

  function StageOf(matrix: Matrix, spec: Spec, r: Round): Stage {
    ReconcilePersistence(matrix, spec, r.status, r.during, r.env)
  }

  /** The stage ends with the stores reachable and every schema ready. */
  predicate Provisioned(s: Stage) {
    !s.failed && s.status.conditions.reachable && s.status.conditions.schemaReady
  }

  /** A store of either kind that a pass probes. */
  predicate Answers(spec: Spec, objects: Objects, v: Contents, store: Store) {
    spec.StoreSpecOf(store).kind == Elasticsearch || Readable(spec, objects, store, v.Of(store)).Some?
  }

  lemma IndexIsDirect(spec: Spec, store: Store)
    requires spec.StoreSpecOf(store).kind == Elasticsearch
    ensures !spec.Inspected(store)
  {
  }

  /** Probing one store of the stage. */
  lemma StageProbe(info: VersionInfo, spec: Spec, r: Round, objects: Objects, store: Store, cache: Cache)
    requires CleanFor(info, spec, r, store)
    ensures var p := ProbeStore(spec, objects, r.env, store, cache);
            && (p.reachable <==> Answers(spec, objects, r.v, store))
            && (p.reachable ==> WorkOf(info, spec, p.objects, r.v, store) == WorkOf(info, spec, objects, r.v, store))
            && (p.reachable && spec.StoreSpecOf(store).kind != Elasticsearch ==>
                  && ProgressOf(spec, p.objects, store, r.v.Of(store)) == ProgressOf(spec, objects, store, r.v.Of(store))
                  && ReadVersion(spec, r.env.StoreEnvOf(store), store, p.cache)
                     == Version(ProgressOf(spec, objects, store, r.v.Of(store)).readable.value))
            && (!p.reachable ==>
                  && spec.StoreSpecOf(store).kind != Elasticsearch
                  && ProgressOf(spec, p.objects, store, r.v.Of(store)) == ProbeMoves(ProgressOf(spec, objects, store, r.v.Of(store))))
            && (forall other :: other != store ==>
                  && SameStore(objects, p.objects, other)
                  && (other in cache ==> other in p.cache && p.cache[other] == cache[other]))
            && p.objects.schemaJobs == objects.schemaJobs
            && (p.reachable && spec.Inspected(store) ==> store in p.objects.inspectors)
  {
    hide Readable, InspectorDistance, Distance, SameStore, SchemaSatisfies, Work;
    if spec.StoreSpecOf(store).kind == Elasticsearch {
      IndexIsDirect(spec, store);
      forall other { SameAsItself(objects, other); }
    } else {
      hide ProbeStore;
      ProbeAdvances(spec, objects, r.env, store, cache, r.v.Of(store));
      AnsweringHasJob(spec, objects, r.env, store, cache);
    }
  }

  /** An inspection that answered has its Job in place. */
  lemma AnsweringHasJob(spec: Spec, objects: Objects, env: Env, store: Store, cache: Cache)
    ensures var p := ProbeStore(spec, objects, env, store, cache);
            p.reachable && spec.Inspected(store) ==> store in p.objects.inspectors
  {
    hide FirstMessage, JobIsTerminal;
  }

  /** The schema step for one store of the stage, after both have answered. */
  lemma StageSchema(info: VersionInfo, spec: Spec, r: Round, objects: Objects, store: Store, cache: Cache)
    requires CleanFor(info, spec, r, store) && StoreDue(info, spec, r, store) && SchemaImageHarmless(spec)
    requires spec.StoreSpecOf(store).kind != Elasticsearch ==>
               && NoneFailed(spec, objects, store)
               && ProgressOf(spec, objects, store, r.v.Of(store)) == ProgressOf(spec, r.during, store, r.v.Of(store))
               && ProgressOf(spec, objects, store, r.v.Of(store)).readable.Some?
               && ReadVersion(spec, r.env.StoreEnvOf(store), store, cache)
                  == Version(ProgressOf(spec, objects, store, r.v.Of(store)).readable.value)
               && (spec.Inspected(store) ==> store in objects.inspectors)
    ensures var s := ReconcileStoreSchema(spec, objects, r.env.StoreEnvOf(store), store, cache, MinFor(info, spec, store));
            && s.verdict in {Done, Migrating}
            && WorkOf(info, spec, s.objects, r.v, store) <= WorkOf(info, spec, r.before, r.v0, store)
            && (s.verdict == Migrating ==>
                  WorkOf(info, spec, s.objects, r.v, store) < WorkOf(info, spec, r.before, r.v0, store))
            && (forall other :: other != store ==> SameStore(objects, s.objects, other))
  {
    hide Readable, InspectorDistance, Distance, SameStore, SchemaSatisfies, NoneFailed, SchemaImageHarmless, Work;
    var v, minSchema := r.v.Of(store), MinFor(info, spec, store);
    if spec.StoreSpecOf(store).kind == Elasticsearch {
      IndexIsDirect(spec, store);
      forall other { SameAsItself(objects, other); }
    } else {
      hide ReconcileStoreSchema, ReadVersion, SchemaMoves;
      var p, q := ProgressOf(spec, r.before, store, r.v0.Of(store)), ProgressOf(spec, r.during, store, v);
      if !spec.Inspected(store) { DirectIsReadable(spec, objects, store, v); }
      SchemaAdvances(spec, objects, r.env.StoreEnvOf(store), store, cache, v, minSchema);
      DueNeverAdds(p, q, v, minSchema);
      if !Ready(q, minSchema) { ReadAdvances(p, q, v, minSchema); }
    }
  }

  lemma WorkDepends(info: VersionInfo, spec: Spec, a: Objects, b: Objects, v: Contents, store: Store)
    requires SameStore(a, b, store)
    ensures WorkOf(info, spec, a, v, store) == WorkOf(info, spec, b, v, store)
  {
    hide ProgressOf, Work, SameStore;
    SameStoreSameProgress(spec, a, b, store, v.Of(store));
  }

  lemma StoreNeverAdds(info: VersionInfo, spec: Spec, r: Round, store: Store)
    requires StoreDue(info, spec, r, store)
    ensures WorkOf(info, spec, r.during, r.v, store) <= WorkOf(info, spec, r.before, r.v0, store)
  {
    hide ProgressOf, Work, DueStep, NoneFailed;
    DueNeverAdds(ProgressOf(spec, r.before, store, r.v0.Of(store)), ProgressOf(spec, r.during, store, r.v.Of(store)),
                 r.v.Of(store), MinFor(info, spec, store));
  }

  /** A store that stays silent in the round's pass comes closer to an answer. */
  lemma SilentStore(info: VersionInfo, spec: Spec, r: Round, objects: Objects, after: Objects, store: Store)
    requires StoreDue(info, spec, r, store) && spec.StoreSpecOf(store).kind != Elasticsearch
    requires ProgressOf(spec, objects, store, r.v.Of(store)) == ProgressOf(spec, r.during, store, r.v.Of(store))
    requires ProgressOf(spec, objects, store, r.v.Of(store)).readable.None?
    requires ProgressOf(spec, after, store, r.v.Of(store)) == ProbeMoves(ProgressOf(spec, objects, store, r.v.Of(store)))
    ensures WorkOf(info, spec, after, r.v, store) < WorkOf(info, spec, r.before, r.v0, store)
  {
    hide ProgressOf, Work, DueStep, NoneFailed, ProbeMoves;
    SilentAdvances(ProgressOf(spec, r.before, store, r.v0.Of(store)), ProgressOf(spec, r.during, store, r.v.Of(store)),
                   r.v.Of(store), MinFor(info, spec, store));
  }

  // ----- both stores -----

  /** The two probes of the stage, one after the other. */
  lemma TwoProbes(spec: Spec, objects: Objects, env: Env)
    ensures var first := ProbeStore(spec, objects, env, DefaultStore, map[]);
            var second := ProbeStore(spec, first.objects, env, VisibilityStore, first.cache);
            ProbeAll(spec, objects, env, TARGETS, map[]) == if first.reachable then second else first
  {
    hide ProbeStore;
    assert TARGETS[0] == DefaultStore && TARGETS[1..] == [VisibilityStore] && [VisibilityStore][1..] == [];
    var first := ProbeStore(spec, objects, env, DefaultStore, map[]);
    var second := ProbeStore(spec, first.objects, env, VisibilityStore, first.cache);
    assert ProbeAll(spec, second.objects, env, [], second.cache) == Probed(true, second.cache, second.objects);
    assert ProbeAll(spec, first.objects, env, [VisibilityStore], first.cache) == second;
  }

  /** After the probes: the store was read, and nothing but inspectors has changed. */
  ghost predicate WasRead(spec: Spec, r: Round, objects: Objects, cache: Cache, store: Store) {
    spec.StoreSpecOf(store).kind != Elasticsearch ==>
      && NoneFailed(spec, objects, store)
      && ProgressOf(spec, objects, store, r.v.Of(store)) == ProgressOf(spec, r.during, store, r.v.Of(store))
      && ProgressOf(spec, objects, store, r.v.Of(store)).readable.Some?
      && ReadVersion(spec, r.env.StoreEnvOf(store), store, cache)
         == Version(ProgressOf(spec, objects, store, r.v.Of(store)).readable.value)
      && (spec.Inspected(store) ==> store in objects.inspectors)
  }

  /** What was read of a store survives what is done for the other. */
  lemma ReadStays(spec: Spec, r: Round, a: Objects, b: Objects, c: Cache, d: Cache, store: Store)
    requires WasRead(spec, r, a, c, store) && SameStore(a, b, store)
    requires store in c ==> store in d && d[store] == c[store]
    ensures WasRead(spec, r, b, d, store)
  {
    hide ProgressOf, NoneFailed;
    SameStoreSameProgress(spec, a, b, store, r.v.Of(store));
  }

  /** A reachable probe of a store as the round found it. */
  lemma ReadAfterProbe(info: VersionInfo, spec: Spec, r: Round, objects: Objects, store: Store, cache: Cache)
    requires CleanFor(info, spec, r, store) && StoreDue(info, spec, r, store) && SameStore(r.during, objects, store)
    ensures var p := ProbeStore(spec, objects, r.env, store, cache);
            && (p.reachable ==>
                  && WasRead(spec, r, p.objects, p.cache, store)
                  && WorkOf(info, spec, p.objects, r.v, store) <= WorkOf(info, spec, r.before, r.v0, store))
            && (!p.reachable ==> WorkOf(info, spec, p.objects, r.v, store) < WorkOf(info, spec, r.before, r.v0, store))
            && (forall other :: other != store ==>
                  && SameStore(objects, p.objects, other)
                  && (other in cache ==> other in p.cache && p.cache[other] == cache[other]))
  {
    hide ProbeStore, ProgressOf, WorkOf, SameStore, StoreDue, CleanFor, ReadVersion, NoneFailed, DueStep;
    var p := ProbeStore(spec, objects, r.env, store, cache);
    StageProbe(info, spec, r, objects, store, cache);
    SameStoreSameProgress(spec, r.during, objects, store, r.v.Of(store));
    WorkDepends(info, spec, r.during, objects, r.v, store);
    StoreNeverAdds(info, spec, r, store);
    DueNoneFailed(info, spec, r, store);
    FailedDepends(spec, objects, p.objects, store);
    ReadableOf(spec, objects, store, r.v.Of(store));
    if !p.reachable { SilentStore(info, spec, r, objects, p.objects, store); }
  }

  lemma ReadableOf(spec: Spec, objects: Objects, store: Store, v: string)
    ensures ProgressOf(spec, objects, store, v).readable == Readable(spec, objects, store, v)
  {
  }

  lemma DueNoneFailed(info: VersionInfo, spec: Spec, r: Round, store: Store)
    requires StoreDue(info, spec, r, store)
    ensures NoneFailed(spec, r.during, store)
  {
    hide ProgressOf, DueStep, NoneFailed;
  }

  lemma FailedDepends(spec: Spec, a: Objects, b: Objects, store: Store)
    requires a.schemaJobs == b.schemaJobs
    ensures NoneFailed(spec, a, store) <==> NoneFailed(spec, b, store)
  {
  }

  /** The probes of a round: both stores are read, or the total work shrinks. */
  lemma ProbesAdvance(info: VersionInfo, spec: Spec, r: Round)
    requires DueDone(info, spec, r) && Clean(info, spec, r)
    ensures var p := ProbeAll(spec, r.during, r.env, TARGETS, map[]);
            && (!p.reachable ==> TotalWork(info, spec, p.objects, r.v) < TotalWork(info, spec, r.before, r.v0))
            && (p.reachable ==> forall store :: WasRead(spec, r, p.objects, p.cache, store))
  {
    hide ProbeStore, ProbeAll, WorkOf, SameStore, StoreDue, CleanFor, WasRead;
    assert StoreDue(info, spec, r, DefaultStore) && StoreDue(info, spec, r, VisibilityStore);
    assert CleanFor(info, spec, r, DefaultStore) && CleanFor(info, spec, r, VisibilityStore);
    TwoProbes(spec, r.during, r.env);
    var first := ProbeStore(spec, r.during, r.env, DefaultStore, map[]);
    var second := ProbeStore(spec, first.objects, r.env, VisibilityStore, first.cache);
    SameAsItself(r.during, DefaultStore);
    ReadAfterProbe(info, spec, r, r.during, DefaultStore, map[]);
    ReadAfterProbe(info, spec, r, first.objects, VisibilityStore, first.cache);
    WorkDepends(info, spec, r.during, first.objects, r.v, VisibilityStore);
    StoreNeverAdds(info, spec, r, VisibilityStore);
    WorkDepends(info, spec, first.objects, second.objects, r.v, DefaultStore);
    if first.reachable { ReadStays(spec, r, first.objects, second.objects, first.cache, second.cache, DefaultStore); }
    if first.reachable && second.reachable {
      forall store ensures WasRead(spec, r, second.objects, second.cache, store) {
        if store == DefaultStore {} else { assert store == VisibilityStore; }
      }
    }
  }

  /** The two schema steps of the stage, when neither fails. */
  lemma TwoSchemas(info: VersionInfo, spec: Spec, status: Status, objects: Objects, env: Env, cache: Cache)
    requires var first := ReconcileStoreSchema(spec, objects, env.defaultStore, DefaultStore, cache, MinFor(info, spec, DefaultStore));
             var second := ReconcileStoreSchema(spec, first.objects, env.visibilityStore, VisibilityStore, cache,
                                                MinFor(info, spec, VisibilityStore));
             first.verdict in {Done, Migrating} && second.verdict in {Done, Migrating}
    ensures var first := ReconcileStoreSchema(spec, objects, env.defaultStore, DefaultStore, cache, MinFor(info, spec, DefaultStore));
            var second := ReconcileStoreSchema(spec, first.objects, env.visibilityStore, VisibilityStore, cache,
                                               MinFor(info, spec, VisibilityStore));
            var r := SchemaAll(info, spec, status, objects, env, TARGETS, cache, false);
            && !r.failed && r.objects == second.objects
            && (r.status.conditions.schemaReady <==> first.verdict == Done && second.verdict == Done)
            && r.status.conditions.reachable == status.conditions.reachable
  {
    hide ReconcileStoreSchema, MinSchemaFor;
    assert TARGETS[0] == DefaultStore && TARGETS[1..] == [VisibilityStore] && [VisibilityStore][1..] == [];
    var first := ReconcileStoreSchema(spec, objects, env.defaultStore, DefaultStore, cache, MinFor(info, spec, DefaultStore));
    var second := ReconcileStoreSchema(spec, first.objects, env.visibilityStore, VisibilityStore, cache,
                                       MinFor(info, spec, VisibilityStore));
    var one := Record(status, DefaultStore, first.version);
    var two := Record(one, VisibilityStore, second.version);
    var m := first.verdict != Done;
    assert SchemaAll(info, spec, two, second.objects, env, [], cache, m || second.verdict != Done)
        == Stage(SetSchemaReady(two, !(m || second.verdict != Done)), second.objects, false);
    assert SchemaAll(info, spec, one, first.objects, env, [VisibilityStore], cache, m)
        == SchemaAll(info, spec, two, second.objects, env, [], cache, m || second.verdict != Done);
    assert SchemaAll(info, spec, status, objects, env, TARGETS, cache, false)
        == SchemaAll(info, spec, one, first.objects, env, [VisibilityStore], cache, m);
  }

  /** The schema steps of a round: every schema is ready, or the total work shrinks. */
  lemma SchemasAdvance(info: VersionInfo, spec: Spec, r: Round, status: Status, objects: Objects, cache: Cache)
    requires DueDone(info, spec, r) && Clean(info, spec, r) && SchemaImageHarmless(spec)
    requires forall store :: WasRead(spec, r, objects, cache, store)
    ensures var s := SchemaAll(info, spec, status, objects, r.env, TARGETS, cache, false);
            && !s.failed && s.status.conditions.reachable == status.conditions.reachable
            && (!s.status.conditions.schemaReady ==> TotalWork(info, spec, s.objects, r.v) < TotalWork(info, spec, r.before, r.v0))
  {
    hide ReconcileStoreSchema, SchemaAll, WorkOf, SameStore, StoreDue, CleanFor, SchemaImageHarmless, MinFor;
    assert StoreDue(info, spec, r, DefaultStore) && StoreDue(info, spec, r, VisibilityStore);
    assert CleanFor(info, spec, r, DefaultStore) && CleanFor(info, spec, r, VisibilityStore);
    assert WasRead(spec, r, objects, cache, DefaultStore) && WasRead(spec, r, objects, cache, VisibilityStore);
    var first := ReconcileStoreSchema(spec, objects, r.env.defaultStore, DefaultStore, cache, MinFor(info, spec, DefaultStore));
    StageSchema(info, spec, r, objects, DefaultStore, cache);
    ReadStays(spec, r, objects, first.objects, cache, cache, VisibilityStore);
    var second := ReconcileStoreSchema(spec, first.objects, r.env.visibilityStore, VisibilityStore, cache,
                                       MinFor(info, spec, VisibilityStore));
    StageSchema(info, spec, r, first.objects, VisibilityStore, cache);
    WorkDepends(info, spec, first.objects, second.objects, r.v, DefaultStore);
    TwoSchemas(info, spec, status, objects, r.env, cache);
  }

  /** One round: the stage ends with both stores reachable and ready, or the total work shrinks. */
  lemma RoundAdvances(matrix: Matrix, spec: Spec, r: Round)
    requires LookupVersion(matrix, spec.version).Some? && SchemaImageHarmless(spec)
    requires var info := LookupVersion(matrix, spec.version).value; DueDone(info, spec, r) && Clean(info, spec, r)
    ensures var info := LookupVersion(matrix, spec.version).value;
            var s := StageOf(matrix, spec, r);
            Provisioned(s) || TotalWork(info, spec, s.objects, r.v) < TotalWork(info, spec, r.before, r.v0)
  {
    hide LookupVersion, ProbeAll, SchemaAll, TotalWork, DueDone, SchemaImageHarmless, WasRead, CleanFor;
    var info := LookupVersion(matrix, spec.version).value;
    var p := ProbeAll(spec, r.during, r.env, TARGETS, map[]);
    ProbesAdvance(info, spec, r);
    if p.reachable { SchemasAdvance(info, spec, r, SetReachable(r.status, true), p.objects, p.cache); }
  }

  // ----- whole provisionings -----

  ghost predicate Chained(matrix: Matrix, info: VersionInfo, spec: Spec, rounds: seq<Round>) {
    && (forall i :: 0 <= i < |rounds| ==> DueDone(info, spec, rounds[i]) && Clean(info, spec, rounds[i]))
    && (forall i :: 0 < i < |rounds| ==>
          rounds[i].before == StageOf(matrix, spec, rounds[i - 1]).objects && rounds[i].v0 == rounds[i - 1].v)
  }

  /**
   Provisioning completes: from any state of both stores' schema Jobs and inspectors, stale,
   deleted, failed, unreadable or half-way, and any schemas in their databases, whether the
   stores are connected directly or inspected by Jobs, as many rounds as there is work left and
   one more contain a pass that finds both stores reachable and every schema ready.
   */
  lemma {:induction false} ProvisioningCompletes(matrix: Matrix, spec: Spec, rounds: seq<Round>)
    requires LookupVersion(matrix, spec.version).Some? && SchemaImageHarmless(spec)
    requires Chained(matrix, LookupVersion(matrix, spec.version).value, spec, rounds)
    requires |rounds| > 0
    requires |rounds| > TotalWork(LookupVersion(matrix, spec.version).value, spec, rounds[0].before, rounds[0].v0)
    ensures exists i :: 0 <= i < |rounds| && Provisioned(StageOf(matrix, spec, rounds[i]))
    decreases |rounds|
  {
    hide LookupVersion, SchemaImageHarmless, DueDone, Clean, StageOf, TotalWork, Provisioned;
    var first := rounds[0];
    RoundAdvances(matrix, spec, first);
    if !Provisioned(StageOf(matrix, spec, first)) {
      var info := LookupVersion(matrix, spec.version).value;
      var rest := rounds[1..];
      assert |rounds| > 1;
      assert Chained(matrix, info, spec, rest) by {
        forall i | 0 < i < |rest|
          ensures rest[i].before == StageOf(matrix, spec, rest[i - 1]).objects && rest[i].v0 == rest[i - 1].v
        {
          assert rest[i] == rounds[i + 1] && rest[i - 1] == rounds[i];
        }
      }
      assert rest[0] == rounds[1];
      ProvisioningCompletes(matrix, spec, rest);
      var i :| 0 <= i < |rest| && Provisioned(StageOf(matrix, spec, rest[i]));
      assert rounds[i + 1] == rest[i];
    }
  }

  /** So thirty-seven rounds always suffice. */
  lemma TotalWorkIsBounded(info: VersionInfo, spec: Spec, objects: Objects, v: Contents)
    ensures TotalWork(info, spec, objects, v) <= 36
  {
    hide ProgressOf, Work;
    WorkIsBounded(ProgressOf(spec, objects, DefaultStore, v.main), MinFor(info, spec, DefaultStore));
    WorkIsBounded(ProgressOf(spec, objects, VisibilityStore, v.visibility), MinFor(info, spec, VisibilityStore));
  }

  // ----- such rounds exist -----

  function Finish(spec: Spec, job: Job): Job {
    if Current(spec, job) && Ending(job.conditions).None? then job.(conditions := [JobCondition(JobComplete, true)]) else job
  }

  /** The cluster removes the Job: it is being deleted, or failed and outlived its time. */
  predicate Gone(spec: Spec, job: Job) {
    job.deleting || EndedAs(spec, job, JobFailed)
  }

  function JobsAfter(spec: Spec, jobs: map<JobKey, Job>): map<JobKey, Job> {
    map key | key in jobs && !Gone(spec, jobs[key]) :: Finish(spec, jobs[key])
  }

  /** The inspection has ended with an answer of `v`. */
  function AnswerOf(database: string, v: string): Pod {
    Pod(database, [ContainerStatus(INSPECT_CONTAINER, Some(Answer(InspectResult(true, v))))])
  }

  function PodsAfter(spec: Spec, objects: Objects, store: Store, v: string): seq<Pod> {
    match InspectorDistance(spec, objects, store)
    case 3 => []
    case 1 => [AnswerOf(spec.StoreSpecOf(store).database, v)]
    case _ => objects.PodsOf(store)
  }

  /** Everything due happens: Jobs end and are removed, and inspections report what the databases hold. */
  function AfterDue(spec: Spec, objects: Objects, v: Contents): Objects {
    objects.(schemaJobs := JobsAfter(spec, objects.schemaJobs),
             inspectors := map store | store in objects.inspectors && InspectorDistance(spec, objects, store) != 3 :: objects.inspectors[store],
             pods := map[DefaultStore := PodsAfter(spec, objects, DefaultStore, v.main),
                         VisibilityStore := PodsAfter(spec, objects, VisibilityStore, v.visibility)])
  }

  lemma JobsCome(spec: Spec, objects: Objects, after: Objects, key: JobKey)
    requires after.schemaJobs == JobsAfter(spec, objects.schemaJobs)
    ensures Comes(Distance(spec, objects, key), Distance(spec, after, key))
    ensures key in after.schemaJobs ==> !EndedAs(spec, after.schemaJobs[key], JobFailed)
  {
    hide AdminToolsImage;
    if key in objects.schemaJobs { EndingIsFinal(objects.schemaJobs[key].conditions); }
  }

  lemma AnswerIsReadable(database: string, v: string)
    ensures FirstMessage([AnswerOf(database, v)]) == Some(Answer(InspectResult(true, v))) && FirstMessage([]) == None
  {
    assert [AnswerOf(database, v)][0] == AnswerOf(database, v);
  }

  lemma PodsOfAfter(spec: Spec, objects: Objects, v: Contents, store: Store)
    ensures AfterDue(spec, objects, v).PodsOf(store) == PodsAfter(spec, objects, store, v.Of(store))
  {
    hide PodsAfter, JobsAfter, InspectorDistance;
  }

  lemma InspectorsCome(spec: Spec, objects: Objects, v: Contents, store: Store)
    requires spec.Inspected(store)
    ensures var after := AfterDue(spec, objects, v);
            && Comes(InspectorDistance(spec, objects, store), InspectorDistance(spec, after, store))
            && Readable(spec, after, store, v.Of(store)) in {Readable(spec, objects, store, v.Of(store)), Some(v.Of(store))}
            && (Readable(spec, objects, store, v.Of(store)).Some? ==>
                  Readable(spec, after, store, v.Of(store)) == Readable(spec, objects, store, v.Of(store)))
  {
    PodsOfAfter(spec, objects, v, store);
    AnswerIsReadable(spec.StoreSpecOf(store).database, v.Of(store));
    hide FirstMessage, JobIsTerminal, JobsAfter;
  }

  /** What the database holds when an update that has succeeded left it at `good`. */
  function ContentAfter(info: VersionInfo, spec: Spec, objects: Objects, store: Store, v0: string, good: string): string {
    if HasEnded(spec, JobsAfter(spec, objects.schemaJobs), JobKey(store, Update), JobSucceeded)
       && !SchemaSatisfies(v0, MinFor(info, spec, store)) then good
    else v0
  }

  lemma StoreDueFollows(info: VersionInfo, spec: Spec, r: Round, store: Store, good: string)
    requires r.during == AfterDue(spec, r.before, r.v)
    requires r.v.Of(store) == ContentAfter(info, spec, r.before, store, r.v0.Of(store), good)
    requires SchemaSatisfies(good, MinFor(info, spec, store)) && good != ""
    ensures StoreDue(info, spec, r, store)
  {
    hide Readable, InspectorDistance, SchemaSatisfies, JobsAfter, EndedAs, MinFor;
    JobsCome(spec, r.before, r.during, JobKey(store, Update));
    JobsCome(spec, r.before, r.during, JobKey(store, Setup));
    forall key ensures key in r.during.schemaJobs && key.store == store ==> !EndedAs(spec, r.during.schemaJobs[key], JobFailed) {
      JobsCome(spec, r.before, r.during, key);
    }
    UpdateOver(spec, r.during, store);
    if spec.Inspected(store) {
      ReadableIgnores(spec, r.before, store, r.v0.Of(store), r.v.Of(store));
      InspectorsCome(spec, r.before, r.v, store);
    } else {
      DirectIsReadable(spec, r.before, store, r.v0.Of(store));
      DirectIsReadable(spec, r.during, store, r.v.Of(store));
      DirectDistance(spec, r.before, store);
      DirectDistance(spec, r.during, store);
    }
  }

  lemma UpdateOver(spec: Spec, objects: Objects, store: Store)
    ensures Distance(spec, objects, JobKey(store, Update)) == 0
       <==> HasEnded(spec, objects.schemaJobs, JobKey(store, Update), JobSucceeded)
  {
  }

  lemma ReadableIgnores(spec: Spec, objects: Objects, store: Store, a: string, b: string)
    requires spec.Inspected(store)
    ensures Readable(spec, objects, store, a) == Readable(spec, objects, store, b)
  {
  }

  lemma DirectDistance(spec: Spec, objects: Objects, store: Store)
    requires !spec.Inspected(store)
    ensures InspectorDistance(spec, objects, store) == 0
  {
  }

  function CleanEnvFor(spec: Spec, store: Store, v: string, good: string): StoreEnv {
    StoreEnv(ProbeOk, Version(if spec.StoreSpecOf(store).kind == Elasticsearch then good else v), false, Version(good),
             CLEAN, false, CLEAN, CLEAN, CLEAN)
  }

  /** From any state of the Jobs, inspectors and databases of both stores a round can follow. */
  lemma RoundCanFollow(info: VersionInfo, spec: Spec, objects: Objects, status: Status, v0: Contents, good: Contents)
    requires forall store :: good.Of(store) != "" && SchemaSatisfies(good.Of(store), MinFor(info, spec, store))
    ensures exists r: Round :: r.before == objects && r.v0 == v0 && r.status == status && DueDone(info, spec, r) && Clean(info, spec, r)
  {
    hide AfterDue, ContentAfter, SchemaSatisfies, StoreDue;
    var v := Contents(ContentAfter(info, spec, objects, DefaultStore, v0.main, good.main),
                      ContentAfter(info, spec, objects, VisibilityStore, v0.visibility, good.visibility));
    var env := Env(false, false, CleanEnvFor(spec, DefaultStore, v.main, good.main),
                   CleanEnvFor(spec, VisibilityStore, v.visibility, good.visibility),
                   false, true, false, false, false, None, false, false, false, Committed);
    var r := Round(objects, v0, AfterDue(spec, objects, v), v, status, env);
    forall store ensures StoreDue(info, spec, r, store) && CleanFor(info, spec, r, store) {
      StoreDueFollows(info, spec, r, store, good.Of(store));
    }
    assert DueDone(info, spec, r) && Clean(info, spec, r);
  }

  // ----- what keeps a store from provisioning -----

  /** No pass removes or retries a failed Job of the current version: it stays, and is reported, until the cluster removes it. */
  lemma FailedJobSticks(spec: Spec, objects: Objects, env: StoreEnv, key: JobKey)
    requires HasEnded(spec, objects.schemaJobs, key, JobFailed)
    ensures var r := EnsureSchemaJob(spec, objects, env, key);
            r.objects == objects && r.phase in {None, Some(JobFailed)}
  {
    OnlyCurrentJobsCount(spec, objects, env, key, JobFailed);
  }

  /** No Job of the store runs the current image. */
  predicate NoneCurrent(spec: Spec, objects: Objects, store: Store) {
    forall key :: key in objects.schemaJobs && key.store == store ==> !Current(spec, objects.schemaJobs[key])
  }

  /**
   Under a Job template that replaces the image, no pass ever makes a current Job of a store
   that has none, and none of its Jobs is reported succeeded or failed: it stays migrating for
   as long as its database is below the minimum.
   */
  lemma HarmfulSchemaImageSticks(spec: Spec, objects: Objects, env: StoreEnv, store: Store, cache: Cache, minSchema: string)
    requires !SchemaImageHarmless(spec) && NoneCurrent(spec, objects, store) && spec.StoreSpecOf(store).kind != Elasticsearch
    ensures var r := ReconcileStoreSchema(spec, objects, env, store, cache, minSchema);
            && NoneCurrent(spec, r.objects, store)
            && r.verdict in {Done, Migrating, Inspecting, Failed}
            && (r.verdict == Done <==> ReadVersion(spec, env, store, cache).Version?
                                       && SchemaSatisfies(ReadVersion(spec, env, store, cache).version, minSchema))
  {
    hide SchemaSatisfies, EnsureSchemaJob, SchemaImageHarmless, ReadVersion, Current;
    var setup, update := JobKey(store, Setup), JobKey(store, Update);
    HarmfulEnsure(spec, objects, env, setup);
    HarmfulEnsure(spec, objects, env, update);
  }

  lemma HarmfulEnsure(spec: Spec, objects: Objects, env: StoreEnv, key: JobKey)
    requires !SchemaImageHarmless(spec) && NoneCurrent(spec, objects, key.store)
    ensures var r := EnsureSchemaJob(spec, objects, env, key);
            r.phase in {None, Some(JobPending)} && NoneCurrent(spec, r.objects, key.store)
  {
    hide AdminToolsImage;
    assert !Current(spec, BuildSchemaJob(spec, key.store));
  }
}
