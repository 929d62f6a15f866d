/**
 Safety of upgrades over whole runs: reconciles interleaved in any way with spec
 edits, outages, Job and Deployment progress and lost status writes.
 */
module UpgradeRuns {
  import opened Wrappers
  import opened Versions
  import opened ClusterTypes
  import opened Persistence
  import opened Upgrades
  import opened Controller
  import opened PassFacts

  /** Position in the order of upgrade phases. */
  function Position(phase: UpgradePhase): nat {
    match phase
    case Pending => 0
    case PreflightChecks => 1
    case SchemaMigrating => 2
    case RollingFrontend => 3
    case RollingHistory => 4
    case RollingMatching => 5
    case RollingInternalFrontend => 6
    case RollingWorker => 7
    case PostUpgrade => 8
    case Complete => 9
  }

  /** Two states of one upgrade record. */
  predicate SameRecord(a: Upgrade, b: Upgrade) {
    a.startedAt == b.startedAt && a.from == b.from && a.to == b.to
  }

  // ----- the record stays consistent with the running version -----

  /** A persisted record upgrades from the running version to a different one. */
  ghost predicate RecordConsistent(w: World) {
    w.status.upgrade.Some? ==>
      && w.status.upgrade.value.from == w.status.version
      && w.status.upgrade.value.from != w.status.upgrade.value.to
      && w.status.upgrade.value.startedAt < w.now
  }

  /** What the upgrade stage does to the record and the running version. */
  lemma UpgradeStageCases(spec: Spec, status: Status, objects: Objects, env: Env, now: nat)
    ensures var r := WorkingRecord(spec, status, now);
            var u := ReconcileUpgrade(spec, status, objects, env, now).status;
            && (r.None? ==> u.upgrade.None? && u.version == status.version)
            && (r.Some? && r.value.phase == Complete ==> u.upgrade.None? && u.version == r.value.to)
            && (r.Some? && r.value.phase != Complete ==>
                  && u.version == status.version && u.upgrade.Some? && SameRecord(u.upgrade.value, r.value)
                  && (u.upgrade.value.phase == r.value.phase || Moves(spec, status, objects, env, r.value, u.upgrade.value.phase)))
  {
    hide ServiceRolledOut;
  }

  /** The versions the stage assigns are those of the record it leaves, or the spec's when it leaves none. */
  lemma StageVersions(spec: Spec, status: Status, objects: Objects, env: Env, now: nat)
    ensures var u := ReconcileUpgrade(spec, status, objects, env, now);
            u.versions == if u.status.upgrade.Some? then UpgradeServiceVersions(spec, u.status.upgrade.value)
                          else UniformVersions(spec, spec.version)
  {
    hide AdvanceUpgrade, WorkingRecord, UpgradeServiceVersions, UniformVersions;
  }

  /** The guard of each phase change. */
  predicate Moves(spec: Spec, status: Status, objects: Objects, env: Env, up: Upgrade, next: UpgradePhase) {
    match up.phase
    case Pending => next == PreflightChecks
    case PreflightChecks => next == SchemaMigrating && status.conditions.reachable
    case SchemaMigrating => next == RollingFrontend && status.conditions.schemaReady
    case PostUpgrade => next == Complete
    case Complete => false
    case _ =>
      && ServiceRolledOut(spec, objects, env, RollingService(up.phase).value, up.to)
      && next == NextRollingPhase(spec, up.phase)
  }

  lemma WorkingRecordIsConsistent(spec: Spec, status: Status, now: nat)
    requires status.upgrade.Some? ==> status.upgrade.value.from == status.version
    ensures var r := WorkingRecord(spec, status, now);
            r.Some? ==> r.value.from == status.version && r.value.to == spec.version && r.value.from != r.value.to
  {
  }

  /** Step facts about a committed reconcile. */
  lemma CommittedRecord(matrix: Matrix, w: World, env: Env)
    requires Commits(matrix, w, env)
    ensures var r := WorkingRecord(w.spec, w.status, w.now);
            var after := Next(matrix, w, ReconcileStep(env)).status;
            && (r.None? ==> after.upgrade.None?)
            && (r.Some? && r.value.phase == Complete ==> after.upgrade.None?)
            && (r.Some? && r.value.phase != Complete ==>
                  && after.version == w.status.version
                  && after.upgrade.Some? && SameRecord(after.upgrade.value, r.value)
                  && (|| after.upgrade.value.phase == r.value.phase
                      || Moves(w.spec, Mid(matrix, w, env), w.objects, env, r.value, after.upgrade.value.phase)))
            && after.conditions.schemaReady == Mid(matrix, w, env).conditions.schemaReady
            && Assigns(matrix, w, env)
  {
    hide PassAt, Mid, ReconcileUpgrade, WorkingRecord, Moves;
    PassOutcome(matrix, w, env);
    MidKeeps(matrix, w, env);
    WorkingRecordDepends(w.spec, w.status, Mid(matrix, w, env), w.now);
    UpgradeStageCases(w.spec, Mid(matrix, w, env), w.objects, env, w.now);
  }

  lemma WorkingRecordDepends(spec: Spec, a: Status, b: Status, now: nat)
    requires a.version == b.version && a.upgrade == b.upgrade
    ensures WorkingRecord(spec, a, now) == WorkingRecord(spec, b, now)
  {
  }

  lemma {:induction false} RecordsStayConsistent(matrix: Matrix, ws: seq<World>, steps: seq<Step>, i: nat)
    requires IsRun(matrix, ws, steps) && i < |ws|
    ensures RecordConsistent(ws[i])
  {
    if i > 0 {
      hide Next, RecordConsistent;
      RecordsStayConsistent(matrix, ws, steps, i - 1);
      assert ws[i] == Next(matrix, ws[i - 1], steps[i - 1]);
      ConsistentStep(matrix, ws[i - 1], steps[i - 1]);
    }
  }

  lemma ConsistentStep(matrix: Matrix, w: World, step: Step)
    requires RecordConsistent(w)
    ensures RecordConsistent(Next(matrix, w, step))
  {
    hide PassAt;
    if step.ReconcileStep? && Commits(matrix, w, step.env) {
      CommittedRecord(matrix, w, step.env);
      WorkingRecordIsConsistent(w.spec, w.status, w.now);
    }
  }

  // ----- no service gets the new version before its schema was seen -----

  /** The reconcile at step `j`, working on this record, saw every store satisfy the target version. */
  ghost predicate SawSchema(matrix: Matrix, ws: seq<World>, steps: seq<Step>, j: nat, up: Upgrade)
    requires |ws| > |steps|
  {
    && j < |steps| && Under(ws, steps, j, up)
    && AllSeenReadyFor(matrix, ws[j].spec, ws[j].objects, steps[j].env, up.to)
  }

  ghost predicate SchemaSeenBefore(matrix: Matrix, ws: seq<World>, steps: seq<Step>, i: nat, up: Upgrade)
    requires |ws| > |steps|
  {
    exists j: nat :: j < i && SawSchema(matrix, ws, steps, j, up)
  }

  /** What a persisted record past the preflight checks stands for. */
  ghost predicate SchemaInvariant(matrix: Matrix, ws: seq<World>, steps: seq<Step>, i: nat)
    requires i < |ws| == |steps| + 1
  {
    ws[i].status.upgrade.Some? ==>
      var up := ws[i].status.upgrade.value;
      && (Position(up.phase) == 2 && ws[i].status.conditions.schemaReady ==> SchemaSeenBefore(matrix, ws, steps, i, up))
      && (Position(up.phase) > 2 ==> SchemaSeenBefore(matrix, ws, steps, i, up))
  }

  lemma SeenStays(matrix: Matrix, ws: seq<World>, steps: seq<Step>, i: nat, k: nat, a: Upgrade, b: Upgrade)
    requires |ws| > |steps| && i <= k && SameRecord(a, b)
    requires SchemaSeenBefore(matrix, ws, steps, i, a)
    ensures SchemaSeenBefore(matrix, ws, steps, k, b)
  {
    hide AllSeenReadyFor, RecordAt;
    var j: nat :| j < i && SawSchema(matrix, ws, steps, j, a);
    assert SawSchema(matrix, ws, steps, j, b);
  }

  /**
   Given the invariant, a reconcile that reaches the upgrade stage has evidence for every
   phase it leaves the record in.
   */
  lemma StageHasEvidence(matrix: Matrix, ws: seq<World>, steps: seq<Step>, i: nat, up: Upgrade, phase: UpgradePhase)
    requires IsRun(matrix, ws, steps) && i < |steps|
    requires SchemaInvariant(matrix, ws, steps, i)
    requires steps[i].ReconcileStep? && Assigns(matrix, ws[i], steps[i].env)
    requires RecordAt(ws, steps, i) == Some(up)
    requires phase == up.phase || Moves(ws[i].spec, Mid(matrix, ws[i], steps[i].env), ws[i].objects, steps[i].env, up, phase)
    ensures Position(phase) == 2 && Mid(matrix, ws[i], steps[i].env).conditions.schemaReady ==>
              SchemaSeenBefore(matrix, ws, steps, i + 1, up)
    ensures Position(phase) > 2 ==> SchemaSeenBefore(matrix, ws, steps, i + 1, up)
  {
    var w, env := ws[i], steps[i].env;
    hide PassAt, Mid, AllSeenReadyFor, SeenReachable, ServiceRolledOut, IsRun, SchemaSeenBefore;
    MidIsFresh(matrix, w, env);
    var c := Mid(matrix, w, env).conditions;
    if c.reachable && c.schemaReady {
      SeenNow(matrix, ws, steps, i, up);
    }
    if up.phase != Pending && SchemaSeenBefore(matrix, ws, steps, i, up) {
      SeenStays(matrix, ws, steps, i, i + 1, up, up);
    }
  }

  lemma SeenNow(matrix: Matrix, ws: seq<World>, steps: seq<Step>, i: nat, up: Upgrade)
    requires |ws| > |steps| > i && steps[i].ReconcileStep? && RecordAt(ws, steps, i) == Some(up)
    requires AllSeenReadyFor(matrix, ws[i].spec, ws[i].objects, steps[i].env, ws[i].spec.version)
    ensures SchemaSeenBefore(matrix, ws, steps, i + 1, up)
  {
    hide AllSeenReadyFor;
    assert up.to == ws[i].spec.version;
    assert SawSchema(matrix, ws, steps, i, up);
  }

  lemma {:induction false} SchemaInvariantHolds(matrix: Matrix, ws: seq<World>, steps: seq<Step>, i: nat)
    requires IsRun(matrix, ws, steps) && i < |ws|
    ensures SchemaInvariant(matrix, ws, steps, i)
  {
    if i > 0 {
      SchemaInvariantHolds(matrix, ws, steps, i - 1);
      hide PassAt, Mid, WorkingRecord, SchemaSeenBefore, Moves;
      var w, step := ws[i - 1], steps[i - 1];
      assert ws[i] == Next(matrix, w, step);
      if ws[i].status.upgrade.Some? {
        var up := ws[i].status.upgrade.value;
        if step.ReconcileStep? && Commits(matrix, w, step.env) {
          CommittedRecord(matrix, w, step.env);
          var r := RecordAt(ws, steps, i - 1);
          StageHasEvidence(matrix, ws, steps, i - 1, r.value, up.phase);
          if SchemaSeenBefore(matrix, ws, steps, i, r.value) {
            SeenStays(matrix, ws, steps, i, i, r.value, up);
          }
        } else {
          assert ws[i].status == w.status;
          if SchemaSeenBefore(matrix, ws, steps, i - 1, up) {
            SeenStays(matrix, ws, steps, i - 1, i, up, up);
          }
        }
      }
    }
  }

  /**
   In every run, whenever a reconcile working on an upgrade record assigns the target
   version to any service, that reconcile or an earlier one working on the same record
   saw every store at a schema the target version accepts.  This holds whether or not the
   reconcile's status is ever written, and although an outage may have left the schema
   condition stale.
   */
  lemma SchemaSeenBeforeRollout(matrix: Matrix, ws: seq<World>, steps: seq<Step>, i: nat, service: Service)
    requires IsRun(matrix, ws, steps) && i < |steps|
    requires steps[i].ReconcileStep? && RecordAt(ws, steps, i).Some?
    requires Assigns(matrix, ws[i], steps[i].env)
    requires var versions := PassAt(matrix, ws[i], steps[i].env).versions.value;
             service in versions && versions[service] == RecordAt(ws, steps, i).value.to
    ensures exists j: nat :: j <= i && SawSchema(matrix, ws, steps, j, RecordAt(ws, steps, i).value)
  {
    assert |ws| == |steps| + 1;
    hide PassAt, Mid, IsRun, SawSchema, Moves, WorkingRecord;
    RecordsStayConsistent(matrix, ws, steps, i);
    SchemaInvariantHolds(matrix, ws, steps, i);
    var up := RecordAt(ws, steps, i).value;
    var phase := TargetPhase(matrix, ws[i], steps[i].env, service);
    StageHasEvidence(matrix, ws, steps, i, up, phase);
    var j: nat :| j < i + 1 && SawSchema(matrix, ws, steps, j, up);
    assert j <= i && SawSchema(matrix, ws, steps, j, up);
  }

  /** The phase in which a reconcile that hands out the target version leaves its record. */
  lemma TargetPhase(matrix: Matrix, w: World, env: Env, service: Service) returns (phase: UpgradePhase)
    requires RecordConsistent(w) && Assigns(matrix, w, env) && WorkingRecord(w.spec, w.status, w.now).Some?
    requires var versions := PassAt(matrix, w, env).versions.value;
             service in versions && versions[service] == WorkingRecord(w.spec, w.status, w.now).value.to
    ensures Position(phase) > 2
    ensures var up := WorkingRecord(w.spec, w.status, w.now).value;
            phase == up.phase || Moves(w.spec, Mid(matrix, w, env), w.objects, env, up, phase)
  {
    var m := Mid(matrix, w, env);
    hide PassAt, Mid, WorkingRecord, Moves, ReconcileUpgrade, ReconcilePersistence, ReconcileMTLS, ReconcileServices, ComputeReadyAndPhase;
    AssigningPass(matrix, w, env);
    MidKeeps(matrix, w, env);
    WorkingRecordDepends(w.spec, w.status, m, w.now);
    WorkingRecordIsConsistent(w.spec, w.status, w.now);
    UpgradeStageCases(w.spec, m, w.objects, env, w.now);
    var u := ReconcileUpgrade(w.spec, m, w.objects, env, w.now).status;
    phase := if u.upgrade.Some? then u.upgrade.value.phase else Complete;
    TargetNeedsRolling(w.spec, m, w.objects, env, w.now, service);
  }

  /** Only a record past the schema migration hands out its target version. */
  lemma TargetNeedsRolling(spec: Spec, status: Status, objects: Objects, env: Env, now: nat, service: Service)
    requires WorkingRecord(spec, status, now).Some?
    requires status.upgrade.Some? ==> status.upgrade.value.from == status.version
    requires var u := ReconcileUpgrade(spec, status, objects, env, now);
             service in u.versions && u.versions[service] == spec.version
    ensures var u := ReconcileUpgrade(spec, status, objects, env, now);
            u.status.upgrade.Some? ==> Position(u.status.upgrade.value.phase) > 2
  {
    hide ServiceRolledOut, EnabledServices;
  }

  // ----- one record only moves forward -----

  /** The phase after `phase`, leaving out internal-frontend when the spec does not enable it. */
  function Successor(spec: Spec, phase: UpgradePhase): UpgradePhase {
    match phase
    case Pending => PreflightChecks
    case PreflightChecks => SchemaMigrating
    case SchemaMigrating => RollingFrontend
    case PostUpgrade => Complete
    case Complete => Complete
    case _ => NextRollingPhase(spec, phase)
  }

  ghost predicate RollbackRule(w: World) {
    w.status.upgrade.Some? ==> RuledOut(w.status.upgrade.value)
  }

  /** `b` is `a` or a later state of the same record. */
  predicate Continues(a: Upgrade, b: Upgrade) {
    && SameRecord(a, b)
    && Position(a.phase) <= Position(b.phase)
    && (!a.rollbackable ==> !b.rollbackable)
  }

  /** Rollback is ruled out for the record exactly from schema migration on. */
  predicate RuledOut(up: Upgrade) {
    !up.rollbackable <==> Position(up.phase) >= 2
  }

  lemma AdvanceContinues(spec: Spec, status: Status, objects: Objects, env: Env)
    requires status.upgrade.Some?
    ensures var r, u := status.upgrade.value, AdvanceUpgrade(spec, status, objects, env).upgrade;
            u.Some? ==>
              && Continues(r, u.value) && u.value.phase in {r.phase, Successor(spec, r.phase)}
              && (RuledOut(r) ==> RuledOut(u.value))
  {
    hide ServiceRolledOut, Position;
    var r := status.upgrade.value;
    SuccessorMoves(spec, r.phase);
    MigrationPosition(r.phase);
    MigrationPosition(Successor(spec, r.phase));
  }

  lemma SuccessorMoves(spec: Spec, phase: UpgradePhase)
    ensures Position(phase) <= Position(Successor(spec, phase))
  {
  }

  lemma MigrationPosition(phase: UpgradePhase)
    ensures Position(phase) >= 2 <==> phase !in {Pending, PreflightChecks}
  {
  }

  /** The record the upgrade stage leaves continues the one it worked on, by at most one phase. */
  lemma StageContinues(spec: Spec, status: Status, objects: Objects, env: Env, now: nat)
    ensures var r := WorkingRecord(spec, status, now);
            var u := ReconcileUpgrade(spec, status, objects, env, now).status.upgrade;
            u.Some? ==>
              && r.Some? && Continues(r.value, u.value) && u.value.phase in {r.value.phase, Successor(spec, r.value.phase)}
              && (RuledOut(r.value) ==> RuledOut(u.value))
  {
    hide AdvanceUpgrade, UpgradeServiceVersions, UniformVersions, WorkingRecord, Continues, RuledOut, Successor;
    var r := WorkingRecord(spec, status, now);
    if r.Some? { AdvanceContinues(spec, status.(upgrade := r), objects, env); }
  }

  lemma CommittedStep(matrix: Matrix, w: World, env: Env)
    requires Commits(matrix, w, env) && RecordConsistent(w) && RollbackRule(w)
    ensures var after := Next(matrix, w, ReconcileStep(env)).status.upgrade;
            && RollbackRule(Next(matrix, w, ReconcileStep(env)))
            && (after.Some? && after.value.startedAt != w.now ==>
                  && w.status.upgrade.Some? && Continues(w.status.upgrade.value, after.value)
                  && after.value.phase in {w.status.upgrade.value.phase, Successor(w.spec, w.status.upgrade.value.phase)})
  {
    hide PassAt, Mid, ReconcileUpgrade, Successor;
    PassOutcome(matrix, w, env);
    MidKeeps(matrix, w, env);
    WorkingRecordDepends(w.spec, w.status, Mid(matrix, w, env), w.now);
    StageContinues(w.spec, Mid(matrix, w, env), w.objects, env, w.now);
  }

  lemma {:induction false} RollbackRuleHolds(matrix: Matrix, ws: seq<World>, steps: seq<Step>, i: nat)
    requires IsRun(matrix, ws, steps) && i < |ws|
    ensures RollbackRule(ws[i])
  {
    if i > 0 {
      RollbackRuleHolds(matrix, ws, steps, i - 1);
      RecordsStayConsistent(matrix, ws, steps, i - 1);
      hide PassAt;
      var w, step := ws[i - 1], steps[i - 1];
      assert ws[i] == Next(matrix, w, step);
      if step.ReconcileStep? && Commits(matrix, w, step.env) {
        CommittedStep(matrix, w, step.env);
      }
    }
  }

  /** One step of a run: a persisted record that was not just created continues the one before it. */
  lemma RecordStep(matrix: Matrix, ws: seq<World>, steps: seq<Step>, i: nat)
    requires IsRun(matrix, ws, steps) && i < |steps|
    requires ws[i + 1].status.upgrade.Some? && ws[i + 1].status.upgrade.value.startedAt != ws[i].now
    ensures ws[i].status.upgrade.Some? && Continues(ws[i].status.upgrade.value, ws[i + 1].status.upgrade.value)
    ensures ws[i + 1].status.upgrade.value.phase
              in {ws[i].status.upgrade.value.phase, Successor(ws[i].spec, ws[i].status.upgrade.value.phase)}
  {
    RollbackRuleHolds(matrix, ws, steps, i);
    RecordsStayConsistent(matrix, ws, steps, i);
    hide PassAt;
    assert ws[i + 1] == Next(matrix, ws[i], steps[i]);
    if steps[i].ReconcileStep? && Commits(matrix, ws[i], steps[i].env) {
      CommittedStep(matrix, ws[i], steps[i].env);
    }
  }

  lemma {:induction false} ClockAdvances(matrix: Matrix, ws: seq<World>, steps: seq<Step>, i: nat, k: nat)
    requires IsRun(matrix, ws, steps) && i <= k < |ws|
    ensures ws[k].now == ws[i].now + (k - i)
  {
    if i < k {
      ClockAdvances(matrix, ws, steps, i, k - 1);
      hide PassAt;
      assert ws[k] == Next(matrix, ws[k - 1], steps[k - 1]);
    }
  }

  lemma {:induction false} Lineage(matrix: Matrix, ws: seq<World>, steps: seq<Step>, i: nat, k: nat)
    requires IsRun(matrix, ws, steps) && i <= k < |ws|
    requires ws[k].status.upgrade.Some? && ws[k].status.upgrade.value.startedAt < ws[i].now
    ensures ws[i].status.upgrade.Some? && Continues(ws[i].status.upgrade.value, ws[k].status.upgrade.value)
  {
    if i < k {
      hide Next;
      ClockAdvances(matrix, ws, steps, i, k - 1);
      RecordStep(matrix, ws, steps, k - 1);
      Lineage(matrix, ws, steps, i, k - 1);
    }
  }

  /**
   Two persisted states of one record, however far apart in the run: the later one has the
   same versions, is at the same or a later phase, and is rollbackable only if the earlier
   one was; and it is rollbackable exactly before schema migration.
   */
  lemma RecordOnlyAdvances(matrix: Matrix, ws: seq<World>, steps: seq<Step>, i: nat, k: nat)
    requires IsRun(matrix, ws, steps) && i <= k < |ws|
    requires ws[i].status.upgrade.Some? && ws[k].status.upgrade.Some?
    requires ws[i].status.upgrade.value.startedAt == ws[k].status.upgrade.value.startedAt
    ensures Continues(ws[i].status.upgrade.value, ws[k].status.upgrade.value)
    ensures ws[k].status.upgrade.value.rollbackable <==> ws[k].status.upgrade.value.phase in {Pending, PreflightChecks}
  {
    hide Next;
    RecordsStayConsistent(matrix, ws, steps, i);
    RollbackRuleHolds(matrix, ws, steps, k);
    MigrationPosition(ws[k].status.upgrade.value.phase);
    Lineage(matrix, ws, steps, i, k);
  }

  /** The services given the target version are a prefix of the upgrade order among those enabled. */
  lemma AssignedIsPrefix(spec: Spec, up: Upgrade, earlier: Service, later: Service)
    requires up.from != up.to && OrderIndex(earlier) <= OrderIndex(later)
    requires earlier in UpgradeServiceVersions(spec, up) && later in UpgradeServiceVersions(spec, up)
    ensures UpgradeServiceVersions(spec, up)[later] in {up.from, up.to}
    ensures UpgradeServiceVersions(spec, up)[later] == up.to ==> UpgradeServiceVersions(spec, up)[earlier] == up.to
  {
  }

  /** A committed reconcile that leaves a record assigns exactly what the persisted record says. */
  lemma CommittedAssignment(matrix: Matrix, w: World, env: Env)
    requires Commits(matrix, w, env) && Next(matrix, w, ReconcileStep(env)).status.upgrade.Some?
    ensures PassAt(matrix, w, env).versions
         == Some(UpgradeServiceVersions(w.spec, Next(matrix, w, ReconcileStep(env)).status.upgrade.value))
  {
    hide PassAt, Mid, AdvanceUpgrade, WorkingRecord, UpgradeServiceVersions, UniformVersions,
         ReconcilePersistence, ReconcileMTLS, ReconcileServices, ComputeReadyAndPhase;
    PassOutcome(matrix, w, env);
    AssigningPass(matrix, w, env);
  }

  // ----- the running version -----

  /**
   The recorded running version changes in two ways only: from empty to the spec's version
   when the cluster first becomes Ready, or from a record's source to its target when the
   record, already persisted as Complete, is closed.
   */
  lemma VersionChangesOnlyTwoWays(matrix: Matrix, ws: seq<World>, steps: seq<Step>, i: nat)
    requires IsRun(matrix, ws, steps) && i < |steps|
    requires ws[i + 1].status.version != ws[i].status.version
    ensures steps[i].ReconcileStep? && Commits(matrix, ws[i], steps[i].env)
    ensures || (&& ws[i].status.version == "" && ws[i + 1].status.version == ws[i].spec.version
                && ws[i + 1].status.conditions.ready && ws[i + 1].status.upgrade.None?)
            || (&& ws[i].status.upgrade.Some? && RecordAt(ws, steps, i) == ws[i].status.upgrade
                && ws[i].status.upgrade.value.phase == Complete
                && ws[i].status.version == ws[i].status.upgrade.value.from
                && ws[i + 1].status.version == ws[i].status.upgrade.value.to)
  {
    RecordsStayConsistent(matrix, ws, steps, i);
    hide PassAt, Mid;
    var w, step := ws[i], steps[i];
    assert ws[i + 1] == Next(matrix, w, step);
    var env := step.env;
    PassOutcome(matrix, w, env);
    MidKeeps(matrix, w, env);
    UpgradeStageCases(w.spec, Mid(matrix, w, env), w.objects, env, w.now);
  }

  // ----- an upgrade closes only after its services were seen rolled out -----

  ghost predicate EnabledThroughout(ws: seq<World>, steps: seq<Step>, i: nat, up: Upgrade, service: Service)
    requires i <= |steps| < |ws|
  {
    forall k: nat :: k < i && Under(ws, steps, k, up) ==> Enabled(ws[k].spec, service)
  }

  /**
   The Deployment is rolled out at the version: it carries the version's label, its first
   container called temporal runs the version's server image, its controller has seen the
   latest generation, and as many replicas as it asks for, one if it does not say, are both
   updated and ready.
   */
  ghost predicate FullyRolled(spec: Spec, d: Deployment, version: string) {
    var desired := if d.replicas.Some? then d.replicas.value else 1;
    && d.versionLabel == version
    && Runs(d.containers, "temporal", ServerImage(spec, version))
    && d.generation == d.observedGeneration
    && d.updatedReplicas == desired && d.readyReplicas == desired
  }

  lemma RolledOutExactly(spec: Spec, d: Deployment, version: string)
    ensures RolledOut(spec, d, version) <==> FullyRolled(spec, d, version)
  {
    hide ImageOf, Runs, ServerImage;
    ImageOfExactly(d.containers, "temporal", ServerImage(spec, version));
  }

  /** The reconcile at step `j`, working on this record, found the service fully rolled out at the target version. */
  ghost predicate SawRolledOut(ws: seq<World>, steps: seq<Step>, j: nat, up: Upgrade, service: Service)
    requires |ws| > |steps|
  {
    && j < |steps| && Under(ws, steps, j, up)
    && service in ws[j].objects.deployments
    && FullyRolled(ws[j].spec, ws[j].objects.deployments[service], up.to)
  }

  ghost predicate RolloutSeenBefore(ws: seq<World>, steps: seq<Step>, i: nat, up: Upgrade, service: Service)
    requires |ws| > |steps|
  {
    exists j: nat :: j < i && SawRolledOut(ws, steps, j, up, service)
  }

  /** The record is past the phase that rolls the service. */
  predicate Past(phase: UpgradePhase, service: Service) {
    Position(phase) > OrderIndex(service) + 3
  }

  ghost predicate RolloutInvariant(ws: seq<World>, steps: seq<Step>, i: nat, service: Service)
    requires i < |ws| == |steps| + 1
  {
    ws[i].status.upgrade.Some? ==>
      var up := ws[i].status.upgrade.value;
      Past(up.phase, service) && EnabledThroughout(ws, steps, i, up, service) ==>
        RolloutSeenBefore(ws, steps, i, up, service)
  }

  lemma RolloutStays(ws: seq<World>, steps: seq<Step>, i: nat, a: Upgrade, b: Upgrade, service: Service)
    requires |ws| > |steps| && SameRecord(a, b) && RolloutSeenBefore(ws, steps, i, a, service)
    ensures RolloutSeenBefore(ws, steps, i + 1, b, service)
  {
    var j: nat :| j < i && SawRolledOut(ws, steps, j, a, service);
    assert SawRolledOut(ws, steps, j, b, service);
  }

  lemma EnabledEarlier(ws: seq<World>, steps: seq<Step>, i: nat, a: Upgrade, b: Upgrade, service: Service)
    requires i + 1 <= |steps| < |ws| && SameRecord(a, b) && EnabledThroughout(ws, steps, i + 1, a, service)
    ensures EnabledThroughout(ws, steps, i, b, service)
    ensures Under(ws, steps, i, b) ==> Enabled(ws[i].spec, service)
  {
    forall k: nat | k < i + 1 && Under(ws, steps, k, b) ensures Enabled(ws[k].spec, service) {
      assert Under(ws, steps, k, a);
    }
  }

  /** Leaving a service's phase behind means having seen it rolled out, or having skipped a disabled service. */
  lemma PassingNeedsRollout(spec: Spec, status: Status, objects: Objects, env: Env, up: Upgrade, next: UpgradePhase, service: Service)
    requires Moves(spec, status, objects, env, up, next)
    requires !Past(up.phase, service) && Past(next, service) && Enabled(spec, service)
    ensures service in objects.deployments && FullyRolled(spec, objects.deployments[service], up.to)
  {
    hide RolledOut, FullyRolled;
    if service in objects.deployments { RolledOutExactly(spec, objects.deployments[service], up.to); }
  }

  lemma RolloutAfterCommit(matrix: Matrix, ws: seq<World>, steps: seq<Step>, i: nat, service: Service)
    requires i + 1 < |ws| == |steps| + 1
    requires steps[i].ReconcileStep? && Commits(matrix, ws[i], steps[i].env)
    requires ws[i + 1] == Next(matrix, ws[i], steps[i])
    requires RolloutInvariant(ws, steps, i, service)
    requires ws[i + 1].status.upgrade.Some? && Past(ws[i + 1].status.upgrade.value.phase, service)
    requires EnabledThroughout(ws, steps, i + 1, ws[i + 1].status.upgrade.value, service)
    ensures RolloutSeenBefore(ws, steps, i + 1, ws[i + 1].status.upgrade.value, service)
  {
    var w, env, up := ws[i], steps[i].env, ws[i + 1].status.upgrade.value;
    hide PassAt, Mid, Moves, RolloutSeenBefore, EnabledThroughout, FullyRolled, Next, Commits, Past, Enabled;
    CommittedRecord(matrix, w, env);
    var r := RecordAt(ws, steps, i).value;
    assert Under(ws, steps, i, up) && Under(ws, steps, i, r);
    EnabledEarlier(ws, steps, i, up, r, service);
    if Past(r.phase, service) {
      assert ws[i].status.upgrade == Some(r) by { FreshIsPastNothing(w.spec, w.status, w.now, service); }
      RolloutStays(ws, steps, i, r, up, service);
    } else {
      PassingNeedsRollout(w.spec, Mid(matrix, w, env), w.objects, env, r, up.phase, service);
      RolloutSeenNow(ws, steps, i, up, service);
    }
  }

  lemma FreshIsPastNothing(spec: Spec, status: Status, now: nat, service: Service)
    requires WorkingRecord(spec, status, now).Some? && Past(WorkingRecord(spec, status, now).value.phase, service)
    ensures WorkingRecord(spec, status, now) == status.upgrade
  {
  }

  lemma {:induction false} RolloutInvariantHolds(matrix: Matrix, ws: seq<World>, steps: seq<Step>, i: nat, service: Service)
    requires IsRun(matrix, ws, steps) && i < |ws|
    ensures RolloutInvariant(ws, steps, i, service)
  {
    if i > 0 {
      RolloutInvariantHolds(matrix, ws, steps, i - 1, service);
      var w, step := ws[i - 1], steps[i - 1];
      assert ws[i] == Next(matrix, w, step);
      hide RolloutSeenBefore, EnabledThroughout, Past, RecordAt, Next, Commits;
      if ws[i].status.upgrade.Some? {
        var up := ws[i].status.upgrade.value;
        if Past(up.phase, service) && EnabledThroughout(ws, steps, i, up, service) {
          if step.ReconcileStep? && Commits(matrix, w, step.env) {
            RolloutAfterCommit(matrix, ws, steps, i - 1, service);
          } else {
            StatusKept(matrix, w, step);
            EnabledEarlier(ws, steps, i - 1, up, up, service);
            RolloutStays(ws, steps, i - 1, up, up, service);
          }
        }
      }
    }
  }

  lemma RolloutSeenNow(ws: seq<World>, steps: seq<Step>, i: nat, up: Upgrade, service: Service)
    requires |ws| > |steps| && SawRolledOut(ws, steps, i, up, service)
    ensures RolloutSeenBefore(ws, steps, i + 1, up, service)
  {
  }

  /**
   When closing a record moves the running version to the target, every service enabled
   throughout the record's reconciles had been seen, by one of them, rolled out at the
   target by label, image, generation and replica counts.
   */
  lemma ClosedOnlyAfterRollout(matrix: Matrix, ws: seq<World>, steps: seq<Step>, i: nat, service: Service)
    requires IsRun(matrix, ws, steps) && i < |steps|
    requires ws[i].status.version != "" && ws[i + 1].status.version != ws[i].status.version
    ensures ws[i].status.upgrade.Some?
    ensures EnabledThroughout(ws, steps, i, ws[i].status.upgrade.value, service) ==>
              RolloutSeenBefore(ws, steps, i, ws[i].status.upgrade.value, service)
  {
    hide Next, EnabledThroughout, RolloutSeenBefore, Commits;
    assert |ws| == |steps| + 1;
    hide IsRun;
    VersionChangesOnlyTwoWays(matrix, ws, steps, i);
    RolloutInvariantHolds(matrix, ws, steps, i, service);
  }
}
