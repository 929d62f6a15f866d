/**
 The history of versions: what the admission webhook
 (internal/webhook/v1alpha1/temporalcluster_webhook.go) and the controller together
 allow the running version and the upgrade records to be.
 */
module VersionRuns {
  import opened Wrappers
  import opened Versions
  import opened ClusterTypes
  import opened Upgrades
  import opened Controller
  import opened PassFacts
  import opened UpgradeRuns

  /** `ValidateUpdate`: a supported version, an allowed move, and an unchanged default store driver. */
  ghost predicate UpdateAdmitted(matrix: Matrix, before: Spec, after: Spec) {
    && IsSupported(matrix, after.version)
    && MoveAdmitted(matrix, before.version, after.version)
    && (before.defaultStore.kind == Sql <==> after.defaultStore.kind == Sql)
  }

  /** A run in which the spec was created and edited only as the webhook admits. */
  ghost predicate AdmittedRun(matrix: Matrix, ws: seq<World>, steps: seq<Step>) {
    && IsRun(matrix, ws, steps)
    && IsSupported(matrix, ws[0].spec.version)
    && forall i :: 0 <= i < |steps| && steps[i].EditSpec? ==> UpdateAdmitted(matrix, ws[i].spec, steps[i].spec)
  }

  /** In an admitted run the default store is SQL throughout or never. */
  lemma {:induction false} DriverIsFinal(matrix: Matrix, ws: seq<World>, steps: seq<Step>, i: nat)
    requires AdmittedRun(matrix, ws, steps) && i < |ws|
    ensures ws[i].spec.defaultStore.kind == Sql <==> ws[0].spec.defaultStore.kind == Sql
  {
    if i > 0 {
      DriverIsFinal(matrix, ws, steps, i - 1);
      hide PassAt, IsSupported, MoveAdmitted;
      assert ws[i] == Next(matrix, ws[i - 1], steps[i - 1]);
    }
  }

  /** The version was the spec's at some point up to `i`. */
  ghost predicate WasAdmitted(ws: seq<World>, i: nat, v: string)
    requires i < |ws|
  {
    exists j: nat :: j <= i && ws[j].spec.version == v
  }

  ghost predicate HistoryInvariant(matrix: Matrix, ws: seq<World>, i: nat)
    requires i < |ws|
  {
    var w := ws[i];
    && IsSupported(matrix, w.spec.version)
    && (w.status.version != "" ==>
          && IsSupported(matrix, w.status.version)
          && Reaches(matrix, w.status.version, w.spec.version)
          && WasAdmitted(ws, i, w.status.version))
    && (w.status.upgrade.Some? ==>
          && w.status.version != ""
          && w.status.upgrade.value.from == w.status.version
          && IsSupported(matrix, w.status.upgrade.value.to)
          && Reaches(matrix, w.status.upgrade.value.from, w.status.upgrade.value.to)
          && Reaches(matrix, w.status.upgrade.value.to, w.spec.version)
          && WasAdmitted(ws, i, w.status.upgrade.value.to))
  }

  lemma AdmittedStays(ws: seq<World>, i: nat, v: string)
    requires i + 1 < |ws| && WasAdmitted(ws, i, v)
    ensures WasAdmitted(ws, i + 1, v)
  {
    var j: nat :| j <= i && ws[j].spec.version == v;
    assert j <= i + 1 && ws[j].spec.version == v;
  }

  /** A committed reconcile keeps the version and the record, or takes them from the spec. */
  lemma CommittedVersions(matrix: Matrix, w: World, env: Env)
    requires Commits(matrix, w, env) && RecordConsistent(w)
    ensures var after := Next(matrix, w, ReconcileStep(env)).status;
            && after.version in {w.status.version, w.spec.version}
            && (after.upgrade.Some? ==>
                  after.version == w.status.version != "" && after.upgrade.value.from == after.version
                  && after.upgrade.value.to == w.spec.version)
  {
    hide PassAt, Mid, ServiceRolledOut, Moves;
    PassOutcome(matrix, w, env);
    MidKeeps(matrix, w, env);
    UpgradeStageCases(w.spec, Mid(matrix, w, env), w.objects, env, w.now);
    WorkingRecordDepends(w.spec, w.status, Mid(matrix, w, env), w.now);
  }

  lemma HistoryAfterCommit(matrix: Matrix, ws: seq<World>, i: nat, env: Env)
    requires i + 1 < |ws| && Commits(matrix, ws[i], env) && RecordConsistent(ws[i])
    requires ws[i + 1] == Next(matrix, ws[i], ReconcileStep(env))
    requires HistoryInvariant(matrix, ws, i)
    ensures HistoryInvariant(matrix, ws, i + 1)
  {
    var w := ws[i];
    hide IsSupported, Reaches, PassAt, Commits;
    CommittedVersions(matrix, w, env);
    ReachesItself(matrix, w.spec.version);
    assert WasAdmitted(ws, i, w.spec.version);
    AdmittedStays(ws, i, w.spec.version);
    if w.status.version != "" {
      AdmittedStays(ws, i, w.status.version);
    }
  }

  lemma HistoryAfterEdit(matrix: Matrix, ws: seq<World>, i: nat, spec: Spec)
    requires i + 1 < |ws| && ws[i + 1] == Next(matrix, ws[i], EditSpec(spec))
    requires UpdateAdmitted(matrix, ws[i].spec, spec)
    requires HistoryInvariant(matrix, ws, i)
    ensures HistoryInvariant(matrix, ws, i + 1)
  {
    var w := ws[i];
    hide IsSupported, Reaches, PassAt, MoveAdmitted;
    if w.status.version != "" {
      ReachesExtends(matrix, w.status.version, w.spec.version, spec.version);
      AdmittedStays(ws, i, w.status.version);
    }
    if w.status.upgrade.Some? {
      ReachesExtends(matrix, w.status.upgrade.value.to, w.spec.version, spec.version);
      AdmittedStays(ws, i, w.status.upgrade.value.to);
    }
  }

  lemma {:induction false} HistoryInvariantHolds(matrix: Matrix, ws: seq<World>, steps: seq<Step>, i: nat)
    requires AdmittedRun(matrix, ws, steps) && i < |ws|
    ensures HistoryInvariant(matrix, ws, i)
  {
    if i > 0 {
      hide IsSupported, Reaches, PassAt, UpdateAdmitted, WasAdmitted;
      HistoryInvariantHolds(matrix, ws, steps, i - 1);
      RecordsStayConsistent(matrix, ws, steps, i - 1);
      var w, step := ws[i - 1], steps[i - 1];
      assert ws[i] == Next(matrix, w, step);
      if step.EditSpec? {
        HistoryAfterEdit(matrix, ws, i - 1, step.spec);
      } else if step.ReconcileStep? && Commits(matrix, w, step.env) {
        HistoryAfterCommit(matrix, ws, i - 1, step.env);
      } else {
        assert ws[i].status == w.status && ws[i].spec == w.spec;
        if w.status.version != "" { AdmittedStays(ws, i - 1, w.status.version); }
        if w.status.upgrade.Some? { AdmittedStays(ws, i - 1, w.status.upgrade.value.to); }
      }
    }
  }

  /**
   In every admitted run, the running version is empty or was the spec's version earlier,
   and every persisted upgrade record goes from the running version strictly upward to a
   version that was the spec's, along a chain of individually allowed moves.
   */
  lemma RecordsFollowAllowedChains(matrix: Matrix, major: nat, base: nat, ws: seq<World>, steps: seq<Step>, i: nat)
    requires AdmittedRun(matrix, ws, steps) && i < |ws|
    requires Coherent(matrix, major, base)
    ensures ws[i].status.version == "" || WasAdmitted(ws, i, ws[i].status.version)
    ensures ws[i].status.upgrade.Some? ==>
              var up := ws[i].status.upgrade.value;
              && up.from == ws[i].status.version
              && Reaches(matrix, up.from, up.to)
              && ParseSemver(up.from).Some? && ParseSemver(up.to).Some?
              && ParseSemver(up.from).value.AtMost(ParseSemver(up.to).value)
              && !ParseSemver(up.to).value.AtMost(ParseSemver(up.from).value)
              && WasAdmitted(ws, i, up.to)
  {
    HistoryInvariantHolds(matrix, ws, steps, i);
    RecordsStayConsistent(matrix, ws, steps, i);
    hide Next, IsSupported, Reaches, ParseSemver, Coherent;
    if ws[i].status.upgrade.Some? {
      ReachesExactlyUpward(matrix, major, base, ws[i].status.upgrade.value.from, ws[i].status.upgrade.value.to);
    }
  }

  /** The record a reconcile works on, persisted or just created, obeys the same rule. */
  lemma WorkingRecordsAscend(matrix: Matrix, major: nat, base: nat, ws: seq<World>, steps: seq<Step>, i: nat)
    requires AdmittedRun(matrix, ws, steps) && i < |steps|
    requires Coherent(matrix, major, base)
    requires RecordAt(ws, steps, i).Some?
    ensures var up := RecordAt(ws, steps, i).value;
            && Reaches(matrix, up.from, up.to)
            && ParseSemver(up.from).Some? && ParseSemver(up.to).Some?
            && !ParseSemver(up.to).value.AtMost(ParseSemver(up.from).value)
  {
    HistoryInvariantHolds(matrix, ws, steps, i);
    RecordsStayConsistent(matrix, ws, steps, i);
    hide Next, IsSupported, Reaches, ParseSemver, Coherent;
    var up := RecordAt(ws, steps, i).value;
    ReachesExactlyUpward(matrix, major, base, up.from, up.to);
  }
}
