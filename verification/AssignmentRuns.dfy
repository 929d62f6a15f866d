/**
 Which services have been handed an upgrade's target, over all reconciles of one record,
 also those whose status was never written.
 */
module AssignmentRuns {
  import opened Wrappers
  import opened Versions
  import opened ClusterTypes
  import opened Persistence
  import opened Upgrades
  import opened Controller
  import opened PassFacts
  import opened UpgradeRuns
  import opened DeploymentFacts

  /** The pass finds what its record's phase waits for. */
  predicate Passable(matrix: Matrix, w: World, env: Env) {
    var r := WorkingRecord(w.spec, w.status, w.now);
    r.Some? &&
    match r.value.phase
    case PreflightChecks => Mid(matrix, w, env).conditions.reachable
    case SchemaMigrating => Mid(matrix, w, env).conditions.schemaReady
    case Pending => true
    case PostUpgrade => true
    case Complete => true
    case _ => ServiceRolledOut(w.spec, w.objects, env, RollingService(r.value.phase).value, r.value.to)
  }

  /** The phase in which the pass assigns versions, written or not; a closing pass assigns as in Complete. */
  function PassPhase(matrix: Matrix, w: World, env: Env): UpgradePhase {
    var up := Upgraded(matrix, w, env).upgrade;
    if up.Some? then up.value.phase else Complete
  }

  /** A pass moves its record exactly one phase on when it finds what the phase waits for, and not otherwise. */
  lemma PassPhaseExactly(matrix: Matrix, w: World, env: Env)
    requires WorkingRecord(w.spec, w.status, w.now).Some?
    ensures var p := WorkingRecord(w.spec, w.status, w.now).value.phase;
            PassPhase(matrix, w, env) == if Passable(matrix, w, env) then Successor(w.spec, p) else p
  {
    hide Mid, ServiceRolledOut, UpgradeServiceVersions, UniformVersions;
    MidKeeps(matrix, w, env);
  }

  /** A service is handed the target exactly when the upgrade order has reached it. */
  lemma AssignedExactly(matrix: Matrix, w: World, env: Env, service: Service)
    requires RecordConsistent(w) && Assigns(matrix, w, env) && WorkingRecord(w.spec, w.status, w.now).Some?
    ensures service in PassAt(matrix, w, env).versions.value <==> Enabled(w.spec, service)
    ensures Enabled(w.spec, service) ==>
              (PassAt(matrix, w, env).versions.value[service] == WorkingRecord(w.spec, w.status, w.now).value.to
               <==> OrderIndex(service) <= UpgradedThrough(PassPhase(matrix, w, env)))
  {
    var m := Mid(matrix, w, env);
    hide PassAt, Mid, WorkingRecord, ReconcileUpgrade, ReconcilePersistence, ReconcileMTLS, ReconcileServices,
         ComputeReadyAndPhase, OrderIndex, UpgradedThrough, EnabledServices;
    AssigningPass(matrix, w, env);
    MidKeeps(matrix, w, env);
    WorkingRecordDepends(w.spec, w.status, m, w.now);
    WorkingRecordIsConsistent(w.spec, w.status, w.now);
    StageCovers(w.spec, m, w.objects, env, w.now, service);
    EnabledListed(w.spec, service);
    if Enabled(w.spec, service) { StageAssignsExactly(w.spec, m, w.objects, env, w.now, service); }
  }

  lemma StageAssignsExactly(spec: Spec, status: Status, objects: Objects, env: Env, now: nat, service: Service)
    requires WorkingRecord(spec, status, now).Some?
    requires status.upgrade.Some? ==> status.upgrade.value.from == status.version
    requires service in ReconcileUpgrade(spec, status, objects, env, now).versions
    ensures var u := ReconcileUpgrade(spec, status, objects, env, now);
            var q := if u.status.upgrade.Some? then u.status.upgrade.value.phase else Complete;
            u.versions[service] == WorkingRecord(spec, status, now).value.to <==> OrderIndex(service) <= UpgradedThrough(q)
  {
    var r := WorkingRecord(spec, status, now).value;
    assert r.to == spec.version && r.from != r.to;
    hide ReconcileUpgrade, WorkingRecord, EnabledServices, OrderIndex, Moves;
    StageVersions(spec, status, objects, env, now);
    UpgradeStageCases(spec, status, objects, env, now);
    LastIndex(service);
  }

  lemma LastIndex(service: Service)
    ensures OrderIndex(service) <= UpgradedThrough(Complete)
  {
  }

  // ----- two passes of one record -----

  /** The reconciles at steps `j` and `k` work on the same record. */
  ghost predicate OneRecord(ws: seq<World>, steps: seq<Step>, j: nat, k: nat)
    requires j < |steps| < |ws| && k < |steps|
  {
    && RecordAt(ws, steps, j).Some? && RecordAt(ws, steps, k).Some?
    && SameRecord(RecordAt(ws, steps, j).value, RecordAt(ws, steps, k).value)
  }

  /** What a later pass of a record finds persisted: nothing earlier than an earlier pass found, nor than it wrote. */
  lemma PersistedPhases(matrix: Matrix, ws: seq<World>, steps: seq<Step>, j: nat, k: nat)
    requires IsRun(matrix, ws, steps) && j < k < |steps| && OneRecord(ws, steps, j, k)
    ensures Position(RecordAt(ws, steps, j).value.phase) <= Position(RecordAt(ws, steps, k).value.phase)
    ensures Commits(matrix, ws[j], steps[j].env) ==>
              Position(PassPhase(matrix, ws[j], steps[j].env)) <= Position(RecordAt(ws, steps, k).value.phase)
  {
    hide Next, PassAt, Mid, Commits, ReconcileUpgrade, PassPhase;
    assert |ws| == |steps| + 1;
    assert ws[j + 1] == Next(matrix, ws[j], steps[j]);
    ClockAdvances(matrix, ws, steps, j, k);
    ClockAdvances(matrix, ws, steps, j, j + 1);
    RecordsStayConsistent(matrix, ws, steps, j);
    RecordsStayConsistent(matrix, ws, steps, k);
    hide IsRun;
    var a, b := RecordAt(ws, steps, j).value, RecordAt(ws, steps, k).value;
    assert ws[k].status.upgrade == Some(b);
    Lineage(matrix, ws, steps, j + 1, k);
    WrittenPhase(matrix, ws[j], steps[j], a);
    if a.startedAt < ws[j].now { Lineage(matrix, ws, steps, j, k); }
  }

  /** A record persisted after a pass is the one the pass worked on only if written then or before. */
  lemma WrittenPhase(matrix: Matrix, w: World, step: Step, a: Upgrade)
    requires step.ReconcileStep? && WorkingRecord(w.spec, w.status, w.now) == Some(a)
    requires RecordConsistent(w)
    requires Next(matrix, w, step).status.upgrade.Some?
    requires SameRecord(Next(matrix, w, step).status.upgrade.value, a)
    ensures Commits(matrix, w, step.env) ==>
              Next(matrix, w, step).status.upgrade.value.phase == PassPhase(matrix, w, step.env)
    ensures Position(a.phase) <= Position(Next(matrix, w, step).status.upgrade.value.phase)
  {
    hide PassAt, Mid;
    if Commits(matrix, w, step.env) {
      PassOutcome(matrix, w, step.env);
      PassPhaseExactly(matrix, w, step.env);
      hide Passable;
    } else {
      StatusKept(matrix, w, step);
    }
  }

  /** A service's own phase lies behind an advance from `p` to `q` that was never written, as a pass at `now` sees it. */
  predicate StillBehind(spec: Spec, p: UpgradePhase, q: UpgradePhase, now: UpgradePhase, passable: bool) {
    && q != p
    && (|| (now == p && !passable)
        || (p == RollingMatching && q == RollingWorker
            && if now == RollingMatching then spec.internalFrontend else now == RollingInternalFrontend && !passable))
  }

  /** The arithmetic of phases behind `TakenBackExactly`. */
  lemma PhasesTakeBack(a: Spec, b: Spec, pj: UpgradePhase, qj: UpgradePhase, pk: UpgradePhase, passable: bool, service: Service)
    requires Position(pj) <= Position(pk) && qj in {pj, Successor(a, pj)}
    requires Enabled(a, service) && Enabled(b, service) && OrderIndex(service) <= UpgradedThrough(qj)
    ensures var qk := if passable then Successor(b, pk) else pk;
            OrderIndex(service) > UpgradedThrough(qk) <==>
              RollingService(qj) == Some(service) && StillBehind(b, pj, qj, pk, passable)
    ensures StillBehind(b, pj, qj, pk, passable) ==> Position(pk) < Position(qj)
  {
  }

  /**
   Over all reconciles of one record, written or not: a service handed the target by one is
   handed the source again by a later one exactly when the earlier one's advance to that
   service was never written, and the later one, still at the phase before it, does not find
   what that phase waits for (or finds internal-frontend enabled in between).  So at most the
   one service of an unwritten advance is ever taken back.
   */
  lemma TakenBackExactly(matrix: Matrix, ws: seq<World>, steps: seq<Step>, j: nat, k: nat, service: Service)
    requires IsRun(matrix, ws, steps) && j < k < |steps| && OneRecord(ws, steps, j, k)
    requires Assigns(matrix, ws[j], steps[j].env) && Assigns(matrix, ws[k], steps[k].env)
    requires service in PassAt(matrix, ws[j], steps[j].env).versions.value
    requires PassAt(matrix, ws[j], steps[j].env).versions.value[service] == RecordAt(ws, steps, j).value.to
    requires service in PassAt(matrix, ws[k], steps[k].env).versions.value
    ensures PassAt(matrix, ws[k], steps[k].env).versions.value[service] != RecordAt(ws, steps, k).value.to <==>
              && RollingService(PassPhase(matrix, ws[j], steps[j].env)) == Some(service)
              && StillBehind(ws[k].spec, RecordAt(ws, steps, j).value.phase, PassPhase(matrix, ws[j], steps[j].env),
                             RecordAt(ws, steps, k).value.phase, Passable(matrix, ws[k], steps[k].env))
    ensures PassAt(matrix, ws[k], steps[k].env).versions.value[service] != RecordAt(ws, steps, k).value.to ==>
              !Commits(matrix, ws[j], steps[j].env)
  {
    hide Next, PassAt, Mid, WorkingRecord, OrderIndex, UpgradedThrough, PassPhase, Passable, Commits, Enabled, StillBehind;
    assert |ws| == |steps| + 1;
    hide IsRun;
    var a, b := RecordAt(ws, steps, j).value, RecordAt(ws, steps, k).value;
    RecordsStayConsistent(matrix, ws, steps, j);
    RecordsStayConsistent(matrix, ws, steps, k);
    AssignedExactly(matrix, ws[j], steps[j].env, service);
    AssignedExactly(matrix, ws[k], steps[k].env, service);
    PassPhaseExactly(matrix, ws[j], steps[j].env);
    PassPhaseExactly(matrix, ws[k], steps[k].env);
    PersistedPhases(matrix, ws, steps, j, k);
    PhasesTakeBack(ws[j].spec, ws[k].spec, a.phase, PassPhase(matrix, ws[j], steps[j].env), b.phase,
                   Passable(matrix, ws[k], steps[k].env), service);
  }

  /**
   After a written pass nothing is taken back: what it assigned the target is assigned it by
   every later pass of the record that still manages the service, written or not, together
   with every enabled service before it in the upgrade order.
   */
  lemma AssignedPrefixNeverShrinks(matrix: Matrix, ws: seq<World>, steps: seq<Step>, j: nat, k: nat,
                                service: Service, earlier: Service)
    requires IsRun(matrix, ws, steps) && j < k < |steps| && OneRecord(ws, steps, j, k)
    requires Commits(matrix, ws[j], steps[j].env) && Assigns(matrix, ws[k], steps[k].env)
    requires Assigns(matrix, ws[j], steps[j].env)
    requires service in PassAt(matrix, ws[j], steps[j].env).versions.value
    requires PassAt(matrix, ws[j], steps[j].env).versions.value[service] == RecordAt(ws, steps, j).value.to
    requires service in PassAt(matrix, ws[k], steps[k].env).versions.value
    requires earlier in PassAt(matrix, ws[k], steps[k].env).versions.value && OrderIndex(earlier) <= OrderIndex(service)
    ensures var later := PassAt(matrix, ws[k], steps[k].env).versions.value;
            later[service] == later[earlier] == RecordAt(ws, steps, k).value.to
  {
    hide Next, PassAt, WorkingRecord, PassPhase, Commits, Enabled, StillBehind, UpgradedThrough;
    assert |ws| == |steps| + 1;
    hide IsRun;
    TakenBackExactly(matrix, ws, steps, j, k, service);
    RecordsStayConsistent(matrix, ws, steps, k);
    AssignedExactly(matrix, ws[k], steps[k].env, service);
    AssignedExactly(matrix, ws[k], steps[k].env, earlier);
  }
}
