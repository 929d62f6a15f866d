/** What a single reconcile does to the status, stage by stage. */
module PassFacts {
  import opened Wrappers
  import opened SchemaVersions
  import opened Versions
  import opened ClusterTypes
  import opened Persistence
  import opened PersistenceFacts
  import opened Upgrades
  import opened Controller

  /** The status as the upgrade stage finds it. */
  function Mid(matrix: Matrix, w: World, env: Env): Status {
    ReconcileMTLS(w.spec, ReconcilePersistence(matrix, w.spec, w.status, w.objects, env).status, w.objects, env).status
  }

  /** The status as the upgrade stage leaves it. */
  function Upgraded(matrix: Matrix, w: World, env: Env): Status {
    ReconcileUpgrade(w.spec, Mid(matrix, w, env), w.objects, env, w.now).status
  }

  /** The reconcile got as far as assigning versions to services. */
  predicate Assigns(matrix: Matrix, w: World, env: Env) {
    PassAt(matrix, w, env).versions.Some?
  }

  lemma AdvanceIgnoresJobs(spec: Spec, status: Status, a: Objects, b: Objects, env: Env)
    requires status.upgrade.Some? && a.deployments == b.deployments
    ensures AdvanceUpgrade(spec, status, a, env) == AdvanceUpgrade(spec, status, b, env)
  {
    hide RolledOut;
  }

  lemma UpgradeIgnoresJobs(spec: Spec, status: Status, a: Objects, b: Objects, env: Env, now: nat)
    requires a.deployments == b.deployments
    ensures ReconcileUpgrade(spec, status, a, env, now) == ReconcileUpgrade(spec, status, b, env, now)
  {
    hide AdvanceUpgrade, WorkingRecord, UpgradeServiceVersions, UniformVersions;
    var record := WorkingRecord(spec, status, now);
    if record.Some? {
      AdvanceIgnoresJobs(spec, status.(upgrade := record), a, b, env);
    }
  }

  lemma MTLSKeeps(spec: Spec, status: Status, objects: Objects, env: Env)
    ensures var t := ReconcileMTLS(spec, status, objects, env);
            && t.objects == objects
            && t.status == status.(conditions := status.conditions.(mtlsReady := t.status.conditions.mtlsReady))
            && (!t.failed && spec.mtls && t.status.conditions.mtlsReady ==> env.certificatesReady && !env.certificatesFailed)
  {
  }

  lemma MidKeeps(matrix: Matrix, w: World, env: Env)
    ensures var m := Mid(matrix, w, env);
            && m.version == w.status.version && m.upgrade == w.status.upgrade
            && m.conditions.available == w.status.conditions.available
            && m.conditions.ready == w.status.conditions.ready
  {
    hide ReconcilePersistence, ReconcileMTLS;
    var p := ReconcilePersistence(matrix, w.spec, w.status, w.objects, env);
    PersistenceIsFresh(matrix, w.spec, w.status, w.objects, env);
    MTLSKeeps(w.spec, p.status, w.objects, env);
  }

  /** Decomposition of a reconcile that reached the upgrade stage. */
  lemma AssigningPass(matrix: Matrix, w: World, env: Env)
    requires Assigns(matrix, w, env)
    ensures var p := ReconcilePersistence(matrix, w.spec, w.status, w.objects, env);
            var t := ReconcileMTLS(w.spec, p.status, p.objects, env);
            var u := ReconcileUpgrade(w.spec, Mid(matrix, w, env), w.objects, env, w.now);
            var s := ReconcileServices(w.spec, u.status, t.objects, env, u.versions);
            && !p.failed && !t.failed && t.objects == p.objects && t.status == Mid(matrix, w, env)
            && p.objects.deployments == w.objects.deployments
            && PassAt(matrix, w, env).versions == Some(u.versions)
            && PassAt(matrix, w, env).objects == s.objects
            && PassAt(matrix, w, env).failed == (s.failed || env.uiFails || env.monitoringFails)
            && (!PassAt(matrix, w, env).failed ==>
                  PassAt(matrix, w, env).status == ComputeReadyAndPhase(w.spec, s.status))
  {
    hide ReconcilePersistence, ReconcileUpgrade, ReconcileServices, ComputeReadyAndPhase;
    var p := ReconcilePersistence(matrix, w.spec, w.status, w.objects, env);
    UpgradeIgnoresJobs(w.spec, Mid(matrix, w, env), w.objects, p.objects, env, w.now);
  }

  /** The conditions the upgrade stage sees were established by this very reconcile, or say so. */
  lemma MidIsFresh(matrix: Matrix, w: World, env: Env)
    requires Assigns(matrix, w, env)
    ensures var c := Mid(matrix, w, env).conditions;
            && (c.reachable ==> forall store :: SeenReachable(w.spec, w.objects, env, store))
            && (c.reachable && c.schemaReady ==> AllSeenReadyFor(matrix, w.spec, w.objects, env, w.spec.version))
            && (!c.reachable ==> c.schemaReady == w.status.conditions.schemaReady)
            && (w.spec.mtls && c.mtlsReady ==> env.certificatesReady && !env.certificatesFailed)
  {
    hide ReconcilePersistence, ReconcileMTLS, Mid, PassAt, SeenReachable, AllSeenReadyFor, ReconcileUpgrade,
         ReconcileServices, ComputeReadyAndPhase;
    var p := ReconcilePersistence(matrix, w.spec, w.status, w.objects, env);
    AssigningPass(matrix, w, env);
    PersistenceIsFresh(matrix, w.spec, w.status, w.objects, env);
    MTLSKeeps(w.spec, p.status, p.objects, env);
  }

  lemma ServicesKeep(spec: Spec, status: Status, objects: Objects, env: Env, versions: Assignment)
    ensures var s := ReconcileServices(spec, status, objects, env, versions);
            && s.status == status.(conditions := status.conditions.(available := s.status.conditions.available),
                                   services := s.status.services)
            && (!s.failed && status.conditions.schemaReady && s.status.conditions.available ==>
                  forall service :: Enabled(spec, service) ==>
                    service in s.objects.deployments && s.objects.deployments[service].readyReplicas >= 1)
  {
    hide ApplyServices, Rollup;
    AppliedExist(spec, objects.deployments, versions, EnabledServices(spec));
    forall service | Enabled(spec, service) ensures service in EnabledServices(spec) { EnabledListed(spec, service); }
  }

  lemma EnabledListed(spec: Spec, service: Service)
    ensures Enabled(spec, service) <==> service in EnabledServices(spec)
  {
    var base := [Frontend, History, Matching, Worker];
    assert base[0] == Frontend && base[1] == History && base[2] == Matching && base[3] == Worker;
  }

  lemma UpgradeKeeps(spec: Spec, status: Status, objects: Objects, env: Env, now: nat)
    ensures var u := ReconcileUpgrade(spec, status, objects, env, now);
            u.status == status.(upgrade := u.status.upgrade, version := u.status.version)
  {
    hide ServiceRolledOut;
  }

  /** The status a successful reconcile computes, in terms of what the upgrade stage left. */
  lemma PassOutcome(matrix: Matrix, w: World, env: Env)
    requires !PassAt(matrix, w, env).failed
    ensures Assigns(matrix, w, env)
    ensures var r := PassAt(matrix, w, env).status;
            var u := Upgraded(matrix, w, env);
            && r.upgrade == u.upgrade
            && r.conditions.reachable == Mid(matrix, w, env).conditions.reachable
            && r.conditions.schemaReady == Mid(matrix, w, env).conditions.schemaReady
            && r.conditions.mtlsReady == Mid(matrix, w, env).conditions.mtlsReady
            && r.version == (if r.conditions.ready && u.upgrade.None? then w.spec.version else u.version)
            && r.conditions.ready == (&& r.conditions.reachable && r.conditions.schemaReady && r.conditions.available
                                      && (!w.spec.mtls || r.conditions.mtlsReady))
            && (r.conditions.schemaReady && r.conditions.available ==>
                  forall service :: Enabled(w.spec, service) ==>
                    && service in PassAt(matrix, w, env).objects.deployments
                    && PassAt(matrix, w, env).objects.deployments[service].readyReplicas >= 1)
  {
    FailureFree(matrix, w, env);
    hide PassAt, Mid, ReconcilePersistence, ReconcileMTLS, ReconcileUpgrade, ReconcileServices, Enabled;
    AssigningPass(matrix, w, env);
    var p := ReconcilePersistence(matrix, w.spec, w.status, w.objects, env);
    var u := ReconcileUpgrade(w.spec, Mid(matrix, w, env), w.objects, env, w.now);
    UpgradeKeeps(w.spec, Mid(matrix, w, env), w.objects, env, w.now);
    ServicesKeep(w.spec, u.status, p.objects, env, u.versions);
  }

  lemma FailureFree(matrix: Matrix, w: World, env: Env)
    requires !PassAt(matrix, w, env).failed
    ensures Assigns(matrix, w, env)
  {
    hide ReconcilePersistence, ReconcileMTLS, ReconcileUpgrade, ReconcileServices, ComputeReadyAndPhase;
  }

  /** The recorded schema versions are the persistence stage's alone. */
  lemma RecordedAreKept(matrix: Matrix, w: World, env: Env)
    requires !PassAt(matrix, w, env).failed
    ensures PassAt(matrix, w, env).status.schemaVersions == Mid(matrix, w, env).schemaVersions
  {
    FailureFree(matrix, w, env);
    hide PassAt, Mid, ReconcilePersistence, ReconcileMTLS, ReconcileUpgrade, ReconcileServices;
    AssigningPass(matrix, w, env);
    var p := ReconcilePersistence(matrix, w.spec, w.status, w.objects, env);
    var u := ReconcileUpgrade(w.spec, Mid(matrix, w, env), w.objects, env, w.now);
    UpgradeKeeps(w.spec, Mid(matrix, w, env), w.objects, env, w.now);
    ServicesKeep(w.spec, u.status, p.objects, env, u.versions);
  }

  /**
   For every store, a pass that reached the stores and found the schema ready has recorded the
   very version it read and accepted; one that did not reach them keeps what was recorded.
   */
  lemma ReadingRecorded(matrix: Matrix, w: World, env: Env, store: Store)
    requires Assigns(matrix, w, env)
    ensures var m := Mid(matrix, w, env);
            && (m.conditions.reachable && m.conditions.schemaReady ==>
                  && LookupVersion(matrix, w.spec.version).Some? && store in m.schemaVersions
                  && Reads(w.spec, w.objects, env, store, m.schemaVersions[store])
                  && SchemaSatisfies(m.schemaVersions[store],
                       MinSchemaFor(LookupVersion(matrix, w.spec.version).value, w.spec.StoreSpecOf(store).kind, store)))
            && (!m.conditions.reachable ==> m.schemaVersions == w.status.schemaVersions)
  {
    hide ReconcilePersistence, ReconcileMTLS, Mid, PassAt, Reads, ReconcileUpgrade, ReconcileServices, ComputeReadyAndPhase,
         SchemaSatisfies, MinSchemaFor, LookupVersion;
    var p := ReconcilePersistence(matrix, w.spec, w.status, w.objects, env);
    AssigningPass(matrix, w, env);
    PersistenceRecords(matrix, w.spec, w.status, w.objects, env, store);
    MTLSKeeps(w.spec, p.status, p.objects, env);
  }

  /**
   Ready=True is never built from stale conditions: a reconcile that computes it has, in
   that same reconcile, found every store reachable, read every store at a schema this
   spec's version accepts, found at least one ready replica behind every enabled service,
   and found the certificates issued when mTLS is on.
   */
  lemma ReadyIsFresh(matrix: Matrix, w: World, env: Env)
    requires !PassAt(matrix, w, env).failed && PassAt(matrix, w, env).status.conditions.ready
    ensures forall store :: SeenReachable(w.spec, w.objects, env, store)
    ensures AllSeenReadyFor(matrix, w.spec, w.objects, env, w.spec.version)
    ensures forall service :: Enabled(w.spec, service) ==>
              && service in PassAt(matrix, w, env).objects.deployments
              && PassAt(matrix, w, env).objects.deployments[service].readyReplicas >= 1
    ensures w.spec.mtls ==> env.certificatesReady && !env.certificatesFailed
  {
    hide PassAt, Mid, SeenReachable, AllSeenReadyFor, Upgraded, Enabled;
    PassOutcome(matrix, w, env);
    MidIsFresh(matrix, w, env);
  }

  /**
   The service table after a roll-up: each service's replica counts are its own Deployment's,
   the version is the spec's even while the service still runs another, and the entries of
   services no longer listed stay as they were.
   */
  lemma {:induction false} RollupReports(spec: Spec, deployments: map<Service, Deployment>,
                                         reported: map<Service, ServiceStatus>, services: seq<Service>, service: Service)
    requires forall s :: s in services ==> s in deployments
    ensures var after := Rollup(spec, deployments, reported, services);
            if service in services then
              && service in after
              && after[service] == ServiceStatus(deployments[service].readyReplicas, deployments[service].Desired(), spec.version)
            else
              && (service in after <==> service in reported)
              && (service in after ==> after[service] == reported[service])
    decreases |services|
  {
    if services != [] {
      var last := |services| - 1;
      RollupReports(spec, deployments, reported, services[..last], service);
      assert services == services[..last] + [services[last]];
    }
  }

  /**
   The Ready phase and the Ready condition disagree exactly when all else is ready and just
   one of these holds: an upgrade is in progress, or mTLS lacks its certificates.
   */
  lemma PhaseDisagreesWithReadyExactly(spec: Spec, status: Status)
    ensures var r := ComputeReadyAndPhase(spec, status);
            var c := status.conditions;
            ((r.phase == ReadyPhase) != r.conditions.ready) <==>
              && c.reachable && c.schemaReady && c.available
              && status.upgrade.Some? != (spec.mtls && !c.mtlsReady)
  {
  }
}
