/**
 One-off workflow runs (internal/controller/temporalworkflowrun_controller.go and
 internal/temporal/workflowrun.go): one reconcile as a function of the persisted
 resource and the answers it gets, and runs of reconciles with lost writes, lost
 responses, spec edits, deletion and server-side retention.
 */
module WorkflowRuns {
  import opened Wrappers

  datatype Cancellation = Abandon | CancelRun | TerminateRun

  datatype RunSpec = RunSpec(
    namespace: string,
    workflowID: string,
    taskQueue: string,
    paramsValid: bool,
    cancellation: Cancellation,
    ttl: Option<nat>)

  datatype RunStatus = RunStatus(runID: string, phase: string, completion: Option<nat>, failure: Option<string>)

  datatype ExecutionStatus =
    | Unspecified | Running | Completed | Failed | Canceled | Terminated | ContinuedAsNew | TimedOut
    | Unknown(code: nat)

  function PhaseFromStatus(s: ExecutionStatus): string {
    match s
    case Running => "Running"
    case Completed => "Completed"
    case Failed => "Failed"
    case Canceled => "Canceled"
    case Terminated => "Terminated"
    case ContinuedAsNew => "ContinuedAsNew"
    case TimedOut => "TimedOut"
    case _ => "Pending"
  }

  predicate IsTerminalStatus(s: ExecutionStatus) {
    !s.Unspecified? && !s.Running?
  }

  /**
   A phase other than Running and Pending means a finished run, and the converse holds for
   exactly the statuses the operator knows: one added by a newer server counts as finished
   under the phase Pending.
   */
  lemma PhaseTellsTerminalExactlyWhenKnown(s: ExecutionStatus)
    ensures PhaseFromStatus(s) !in {"Running", "Pending"} ==> IsTerminalStatus(s)
    ensures (IsTerminalStatus(s) <==> PhaseFromStatus(s) !in {"Running", "Pending"}) <==> !s.Unknown?
  {
    var phase := PhaseFromStatus(s);
    assert |"Running"| == 7 && |"Pending"| == 7;
    assert |"Completed"| == 9 && |"Failed"| == 6 && |"Canceled"| == 8 && |"Terminated"| == 10;
    assert |"ContinuedAsNew"| == 14 && |"TimedOut"| == 8;
  }

  /** A phase names its status: every status the operator knows has a phase of its own, and all others share Pending. */
  lemma PhaseNamesStatus(s: ExecutionStatus)
    ensures PhaseFromStatus(s) == "Running" <==> s.Running?
    ensures PhaseFromStatus(s) == "Completed" <==> s.Completed?
    ensures PhaseFromStatus(s) == "Failed" <==> s.Failed?
    ensures PhaseFromStatus(s) == "Canceled" <==> s.Canceled?
    ensures PhaseFromStatus(s) == "Terminated" <==> s.Terminated?
    ensures PhaseFromStatus(s) == "ContinuedAsNew" <==> s.ContinuedAsNew?
    ensures PhaseFromStatus(s) == "TimedOut" <==> s.TimedOut?
    ensures PhaseFromStatus(s) == "Pending" <==> s.Unspecified? || s.Unknown?
  {
    assert |"Running"| == 7 && |"Pending"| == 7 && "Running"[0] == 'R' && "Pending"[0] == 'P';
    assert |"Completed"| == 9 && |"Failed"| == 6 && |"Terminated"| == 10 && |"ContinuedAsNew"| == 14;
    assert |"Canceled"| == 8 && |"TimedOut"| == 8 && "Canceled"[0] == 'C' && "TimedOut"[0] == 'T';
  }

  // ----- policy -----

  datatype Policy = Policy(enabled: bool, allowedNamespaces: seq<string>, allowedTaskQueues: seq<string>)

  predicate Permits(p: Policy, namespace: string, taskQueue: string) {
    && p.enabled
    && (|p.allowedNamespaces| > 0 ==> namespace in p.allowedNamespaces)
    && (|p.allowedTaskQueues| > 0 ==> taskQueue in p.allowedTaskQueues)
  }

  // ----- the server -----

  /**
   What matters about the Temporal server: the execution it remembers for the resource's
   request ID, and every execution it ever created for that ID.
   */
  datatype Server = Server(remembered: Option<string>, created: seq<string>)

  /** What happens to a start request.  A lost response takes effect and reports an error. */
  datatype StartReply =
    | Accepted(newRunID: string)
    | LostResponse(newRunID: string)
    | AlreadyExists(openRunID: string)
    | StartFails

  /** The de-duplicating server: a remembered request ID creates nothing. */
  function ServerStart(server: Server, reply: StartReply): Server {
    if (reply.Accepted? || reply.LostResponse?) && server.remembered.None? then
      Server(Some(reply.newRunID), server.created + [reply.newRunID])
    else server
  }

  /** The run ID `Start` returns; `None` is an error. */
  function StartedRunID(server: Server, reply: StartReply): Option<string> {
    match reply
    case Accepted(id) => Some(server.remembered.GetOr(id))
    case AlreadyExists(id) => Some(id)
    case _ => None
  }

  datatype DescribeReply = Info(status: ExecutionStatus, failure: Option<string>) | DescribeFails(transient: bool)
  datatype ControlReply = ControlOk | ControlNotFound | ControlFails
  datatype TargetReply = TargetNotFound | ResolveFails | Target(ready: bool, policy: Policy)

  datatype Env = Env(
    target: TargetReply,
    clientFails: bool,
    addFinalizerFails: bool,
    start: StartReply,
    describe: DescribeReply,
    written: bool,
    control: ControlReply,
    removeFinalizerFails: bool,
    ttlDeleteFails: bool)

  datatype Call =
    | StartCall(namespace: string, workflowID: string, taskQueue: string)
    | DescribeCall
    | CancelCall(runID: string)
    | TerminateCall(runID: string)

  /** The resource as persisted, the clock, and the server. */
  datatype World = World(
    now: nat,
    spec: RunSpec,
    status: RunStatus,
    finalizer: bool,
    deleting: bool,
    gone: bool,
    server: Server)

  datatype Pass = Pass(world: World, calls: seq<Call>)

  // ----- one reconcile -----

  /** Asking the API server to delete: immediate without a finalizer, else pending. */
  function RequestDelete(w: World): World {
    w.(deleting := true, gone := !w.finalizer)
  }

  function RemoveFinalizer(w: World, env: Env): World {
    if !w.finalizer || env.removeFinalizerFails then w
    else w.(finalizer := false, gone := w.deleting)
  }

  /** `ttlCleanup`, on a status with a completion time. */
  function TtlCleanup(w: World, env: Env): World
    requires w.status.completion.Some?
  {
    if w.spec.ttl.None? || w.now < w.status.completion.value + w.spec.ttl.value || env.ttlDeleteFails then w
    else RequestDelete(w)
  }

  /** From `Describe` on; `status` is the in-memory copy, possibly ahead of what is persisted. */
  function Refresh(w: World, env: Env, status: RunStatus): World {
    match env.describe
    case DescribeFails(transient) => if transient && env.written then w.(status := status) else w
    case Info(s, failure) =>
      var observed := status.(phase := PhaseFromStatus(s));
      if !IsTerminalStatus(s) then
        if env.written then w.(status := observed) else w
      else if !env.written then w
      else
        var finished := observed.(completion := Some(w.now),
                                  failure := if failure.Some? then failure else observed.failure);
        TtlCleanup(w.(status := finished), env)
  }

  /** `reconcileRun`. */
  function ReconcileRun(w: World, env: Env, policy: Policy): Pass {
    if w.status.completion.Some? then Pass(TtlCleanup(w, env), [])
    else if w.status.runID != "" then Pass(Refresh(w, env, w.status), [DescribeCall])
    else if !Permits(policy, w.spec.namespace, w.spec.taskQueue) || !w.spec.paramsValid then Pass(w, [])
    else
      var start := StartCall(w.spec.namespace, w.spec.workflowID, w.spec.taskQueue);
      var served := w.(server := ServerStart(w.server, env.start));
      var runID := StartedRunID(w.server, env.start);
      if runID.None? then Pass(served, [start])
      else Pass(Refresh(served, env, w.status.(runID := runID.value, phase := "Running")), [start, DescribeCall])
  }

  /** `reconcileDelete`. */
  function ReconcileDelete(w: World, env: Env): Pass {
    if !w.finalizer then Pass(w, [])
    else if w.status.runID != "" && w.status.completion.None? && w.spec.cancellation != Abandon then
      var call := if w.spec.cancellation == CancelRun then CancelCall(w.status.runID) else TerminateCall(w.status.runID);
      if env.control == ControlFails then Pass(w, [call]) else Pass(RemoveFinalizer(w, env), [call])
    else Pass(RemoveFinalizer(w, env), [])
  }

  function Reconcile(w: World, env: Env): Pass {
    if w.gone then Pass(w, [])
    else if !env.target.Target? then
      if w.deleting && env.target.TargetNotFound? then Pass(RemoveFinalizer(w, env), []) else Pass(w, [])
    else if env.clientFails then Pass(w, [])
    else if w.deleting then ReconcileDelete(w, env)
    else if !w.finalizer && env.addFinalizerFails then Pass(w, [])
    else
      var guarded := w.(finalizer := true);
      if !env.target.ready then Pass(guarded, []) else ReconcileRun(guarded, env, env.target.policy)
  }

  // ----- runs -----

  datatype Step = ReconcileStep(env: Env) | EditSpec(spec: RunSpec) | UserDeletes | ServerForgets

  /** The webhook's update rule: the workflow and its namespace stay. */
  predicate UpdateAdmitted(before: RunSpec, after: RunSpec) {
    after == before.(cancellation := after.cancellation, ttl := after.ttl)
  }

  predicate Allowed(w: World, step: Step) {
    match step
    case ReconcileStep(env) =>
      // run IDs are never empty
      && (env.start.Accepted? || env.start.LostResponse? ==> env.start.newRunID != "")
      && (env.start.AlreadyExists? ==> env.start.openRunID != "")
    case EditSpec(spec) => !w.gone && UpdateAdmitted(w.spec, spec)
    case UserDeletes => !w.gone
    case ServerForgets => true
  }

  function CallsAt(w: World, step: Step): seq<Call> {
    if step.ReconcileStep? then Reconcile(w, step.env).calls else []
  }

  function Next(w: World, step: Step): World {
    var after := match step
      case ReconcileStep(env) => Reconcile(w, env).world
      case EditSpec(spec) => w.(spec := spec)
      case UserDeletes => RequestDelete(w)
      case ServerForgets => w.(server := w.server.(remembered := None));
    after.(now := w.now + 1)
  }

  const NEW_STATUS := RunStatus("", "", None, None)

  ghost predicate IsRun(ws: seq<World>, steps: seq<Step>) {
    && |ws| == |steps| + 1
    && ws[0].status == NEW_STATUS && !ws[0].finalizer && !ws[0].deleting && !ws[0].gone
    && ws[0].server == Server(None, [])
    && forall i :: 0 <= i < |steps| ==> Allowed(ws[i], steps[i]) && ws[i + 1] == Next(ws[i], steps[i])
  }

  lemma StepOf(ws: seq<World>, steps: seq<Step>, i: nat)
    requires IsRun(ws, steps) && i < |ws|
    ensures |ws| == |steps| + 1
    ensures i < |steps| ==> Allowed(ws[i], steps[i]) && ws[i + 1] == Next(ws[i], steps[i])
  {
    hide Allowed, Next;
  }

  // ----- started once -----

  ghost predicate Sane(w: World) {
    && (w.server.remembered.Some? ==> w.server.remembered.value != "")
    && (w.status.completion.Some? ==> w.status.runID != "")
  }

  /** What any step may do to the persisted status and the server. */
  lemma StepFacts(w: World, step: Step)
    requires Sane(w) && Allowed(w, step)
    ensures var next := Next(w, step);
            && Sane(next)
            && (w.status.runID != "" ==> next.status.runID == w.status.runID)
            && (w.status.completion.Some? ==> next.status == w.status)
            && (next.server.created != w.server.created ==>
                  && w.status.runID == "" && w.server.remembered.None?
                  && |next.server.created| == |w.server.created| + 1 && next.server.remembered.Some?)
            && (next.server.created == w.server.created ==>
                  next.server.remembered == w.server.remembered || step.ServerForgets?)
            && (next.spec == w.spec || step.EditSpec?)
  {
    hide PhaseFromStatus, IsTerminalStatus, Permits;
  }

  lemma {:induction false} AlwaysSane(ws: seq<World>, steps: seq<Step>, i: nat)
    requires IsRun(ws, steps) && i < |ws|
    ensures Sane(ws[i])
  {
    if i > 0 {
      AlwaysSane(ws, steps, i - 1);
      StepOf(ws, steps, i - 1);
      hide IsRun, Next, Allowed;
      StepFacts(ws[i - 1], steps[i - 1]);
    }
  }

  /** A persisted run ID never changes, for as long as the resource is persisted. */
  lemma {:induction false} RunIDIsFinal(ws: seq<World>, steps: seq<Step>, i: nat, k: nat)
    requires IsRun(ws, steps) && i <= k < |ws|
    requires ws[i].status.runID != ""
    ensures ws[k].status.runID == ws[i].status.runID
  {
    if i < k {
      RunIDIsFinal(ws, steps, i, k - 1);
      AlwaysSane(ws, steps, k - 1);
      StepOf(ws, steps, k - 1);
      hide IsRun, Next, Allowed;
      StepFacts(ws[k - 1], steps[k - 1]);
    }
  }

  /** How often, before a run ID was persisted, the server forgot an execution it had created. */
  ghost function EarlyForgets(ws: seq<World>, steps: seq<Step>, i: nat): nat
    requires i <= |steps| < |ws|
  {
    if i == 0 then 0
    else EarlyForgets(ws, steps, i - 1)
         + if steps[i - 1].ServerForgets? && ws[i - 1].status.runID == "" && ws[i - 1].server.remembered.Some? then 1 else 0
  }

  /**
   The number of executions ever created for the resource's UID, over crashes, lost
   responses, lost status writes and retries: while no run ID is persisted it is exactly the
   number the server forgot plus the one it remembers, and never more than one more than it
   forgot early.
   */
  lemma {:induction false} StartedAtMostOnce(ws: seq<World>, steps: seq<Step>, i: nat)
    requires IsRun(ws, steps) && i < |ws|
    ensures ws[i].status.runID == "" ==>
              |ws[i].server.created| == EarlyForgets(ws, steps, i) + if ws[i].server.remembered.Some? then 1 else 0
    ensures |ws[i].server.created| <= EarlyForgets(ws, steps, i) + 1
  {
    if i > 0 {
      StartedAtMostOnce(ws, steps, i - 1);
      AlwaysSane(ws, steps, i - 1);
      StepOf(ws, steps, i - 1);
      StepFacts(ws[i - 1], steps[i - 1]);
      if steps[i - 1].ServerForgets? { assert ws[i].server == ws[i - 1].server.(remembered := None); }
      hide IsRun, Next, Allowed;
    }
  }

  /** With a server that keeps request IDs until the run ID is persisted, at most one execution ever exists. */
  lemma OneExecution(ws: seq<World>, steps: seq<Step>, i: nat)
    requires IsRun(ws, steps) && i < |ws|
    requires forall k :: 0 <= k < i && steps[k].ServerForgets? ==> ws[k].status.runID != "" || ws[k].server.remembered.None?
    ensures |ws[i].server.created| <= 1
  {
    hide Next, Allowed;
    StartedAtMostOnce(ws, steps, i);
    NoEarlyForgets(ws, steps, i);
  }

  lemma {:induction false} NoEarlyForgets(ws: seq<World>, steps: seq<Step>, i: nat)
    requires i <= |steps| < |ws|
    requires forall k :: 0 <= k < i && steps[k].ServerForgets? ==> ws[k].status.runID != "" || ws[k].server.remembered.None?
    ensures EarlyForgets(ws, steps, i) == 0
  {
    if i > 0 { NoEarlyForgets(ws, steps, i - 1); }
  }

  /** The pass gets as far as driving the run: a live resource under its finalizer, on a ready target. */
  predicate Drives(w: World, env: Env) {
    && !w.gone && !w.deleting && env.target.Target? && !env.clientFails
    && (w.finalizer || !env.addFinalizerFails) && env.target.ready
  }

  /** A list of names admits a name if it is empty or holds it. */
  predicate Admits(names: seq<string>, name: string) {
    names == [] || name in names
  }

  /** Nothing was recorded yet, the target's policy admits the namespace and the task queue, and the parameters are valid. */
  predicate MayStart(w: World, policy: Policy) {
    && w.status.runID == "" && w.status.completion.None? && w.spec.paramsValid
    && policy.enabled && Admits(policy.allowedNamespaces, w.spec.namespace) && Admits(policy.allowedTaskQueues, w.spec.taskQueue)
  }

  /**
   A workflow is started exactly by passes that drive the run before a run ID or a completion
   is recorded, under a policy that is enabled and whose lists, where not empty, hold the
   namespace and the task queue; and the start is for this resource's workflow.
   */
  lemma StartsArePermitted(w: World, env: Env)
    ensures (exists call :: call in Reconcile(w, env).calls && call.StartCall?) <==> Drives(w, env) && MayStart(w, env.target.policy)
    ensures forall call :: call in Reconcile(w, env).calls && call.StartCall? ==>
              call == StartCall(w.spec.namespace, w.spec.workflowID, w.spec.taskQueue)
  {
    hide Refresh, TtlCleanup;
    if Drives(w, env) && MayStart(w, env.target.policy) {
      assert Reconcile(w, env).calls[0].StartCall?;
    }
  }

  /** The run ID the pass looks at: the recorded one, or the one its own start returned. */
  function CurrentRunID(w: World, env: Env): Option<string> {
    if w.status.runID != "" then Some(w.status.runID) else StartedRunID(w.server, env.start)
  }

  /** The pass asks the server about the run: it drives an unfinished run that is recorded or that it just started. */
  predicate Looks(w: World, env: Env) {
    && Drives(w, env) && w.status.completion.None?
    && (w.status.runID != "" || (MayStart(w, env.target.policy) && (env.start.Accepted? || env.start.AlreadyExists?)))
  }

  lemma LooksExactly(w: World, env: Env)
    ensures DescribeCall in Reconcile(w, env).calls <==> Looks(w, env)
  {
    hide Refresh, TtlCleanup;
  }

  /**
   What a pass leaves in the persisted status.  If it looked at the run and got its status
   written, the run ID and what it saw: the phase, and for a finished run this pass's time and
   the failure, if one was reported.  If the look failed for a passing reason, only the run ID.
   In all other cases nothing changes.
   */
  lemma PassRecords(w: World, env: Env)
    ensures var after := Reconcile(w, env).world.status;
            if Looks(w, env) && env.written && env.describe.Info? then
              && Some(after.runID) == CurrentRunID(w, env)
              && after.phase == PhaseFromStatus(env.describe.status)
              && (after.completion == if env.describe.status in {Unspecified, Running} then None else Some(w.now))
              && (after.failure == if env.describe.status !in {Unspecified, Running} && env.describe.failure.Some?
                                   then env.describe.failure else w.status.failure)
            else if Looks(w, env) && env.written && env.describe.transient then
              && Some(after.runID) == CurrentRunID(w, env)
              && after == w.status.(runID := after.runID, phase := if w.status.runID == "" then "Running" else w.status.phase)
            else after == w.status
  {
    hide PhaseFromStatus;
  }

  // ----- whose execution is recorded -----

  /** The execution the server remembers for the UID is one it created for it. */
  ghost predicate RemembersOwn(w: World) {
    w.server.remembered.Some? ==> w.server.remembered.value in w.server.created
  }

  /** The step records a run ID. */
  predicate Recording(w: World, step: Step) {
    step.ReconcileStep? && w.status.runID == "" && Next(w, step).status.runID != ""
  }

  lemma RecordingFacts(w: World, step: Step)
    requires Sane(w) && RemembersOwn(w) && Allowed(w, step)
    ensures RemembersOwn(Next(w, step))
    ensures w.status.runID == "" && Next(w, step).status.runID != "" ==> Recording(w, step)
    ensures Recording(w, step) ==>
              (Next(w, step).status.runID in Next(w, step).server.created <==>
                 step.env.start.Accepted? || Next(w, step).status.runID in w.server.created)
  {
    hide PhaseFromStatus, IsTerminalStatus, Permits;
  }

  lemma {:induction false} AlwaysRemembersOwn(ws: seq<World>, steps: seq<Step>, i: nat)
    requires IsRun(ws, steps) && i < |ws|
    ensures RemembersOwn(ws[i])
  {
    hide Next, Allowed, Recording, Sane;
    if i > 0 {
      AlwaysRemembersOwn(ws, steps, i - 1);
      AlwaysSane(ws, steps, i - 1);
      StepOf(ws, steps, i - 1);
      RecordingFacts(ws[i - 1], steps[i - 1]);
    }
  }

  /** The pass at step `k` recorded the run ID that is recorded at `i`. */
  ghost predicate RecordedAt(ws: seq<World>, steps: seq<Step>, k: nat, i: nat)
    requires i < |ws| == |steps| + 1
  {
    k < i && steps[k].ReconcileStep? && Recording(ws[k], steps[k]) && ws[k + 1].status.runID == ws[i].status.runID
  }

  /**
   Over any run a recorded run ID was recorded by one pass, and it is that of an execution
   created for this UID exactly when that pass's start was accepted, or the execution it found
   open under the workflow ID had been created for this UID before.
   */
  lemma {:induction false} RecordedRunIsOursExactly(ws: seq<World>, steps: seq<Step>, i: nat)
    requires IsRun(ws, steps) && i < |ws| && ws[i].status.runID != ""
    ensures |ws| == |steps| + 1
    ensures exists k: nat :: RecordedAt(ws, steps, k, i)
              && (ws[i].status.runID in ws[i].server.created <==>
                    steps[k].env.start.Accepted? || ws[i].status.runID in ws[k].server.created)
  {
    hide Next, Allowed, Recording, Sane, RemembersOwn;
    StepOf(ws, steps, i);
    assert i > 0;
    StepOf(ws, steps, i - 1);
    AlwaysSane(ws, steps, i - 1);
    AlwaysRemembersOwn(ws, steps, i - 1);
    hide IsRun;
    RecordingFacts(ws[i - 1], steps[i - 1]);
    if ws[i - 1].status.runID == "" {
      RecordingReconciles(ws[i - 1], steps[i - 1]);
      assert RecordedAt(ws, steps, i - 1, i);
    } else {
      StepFacts(ws[i - 1], steps[i - 1]);
      RecordedRunIsOursExactly(ws, steps, i - 1);
      var k: nat :| RecordedAt(ws, steps, k, i - 1)
                    && (ws[i - 1].status.runID in ws[i - 1].server.created <==>
                          steps[k].env.start.Accepted? || ws[i - 1].status.runID in ws[k].server.created);
      assert RecordedAt(ws, steps, k, i);
    }
  }

  lemma RecordingReconciles(w: World, step: Step)
    requires Recording(w, step)
    ensures step.ReconcileStep?
  {
    hide Next;
  }

  // ----- finished is final -----

  lemma FinishedMakesNoCalls(w: World, step: Step)
    requires w.status.completion.Some?
    ensures CallsAt(w, step) == []
  {
  }

  /**
   Once a completion time is persisted, no later step, TTL deletion and its finalizer pass
   included, calls the server or changes phase, failure or run ID.
   */
  lemma {:induction false} FinishedIsFrozen(ws: seq<World>, steps: seq<Step>, i: nat, k: nat)
    requires IsRun(ws, steps) && i <= k < |ws|
    requires ws[i].status.completion.Some?
    ensures ws[k].status == ws[i].status
    ensures k < |steps| ==> CallsAt(ws[k], steps[k]) == []
  {
    hide IsRun, Next, Allowed, CallsAt, Sane;
    StepOf(ws, steps, k);
    if i < k {
      FinishedIsFrozen(ws, steps, i, k - 1);
      AlwaysSane(ws, steps, k - 1);
      StepOf(ws, steps, k - 1);
      StepFacts(ws[k - 1], steps[k - 1]);
    }
    if k < |steps| { FinishedMakesNoCalls(ws[k], steps[k]); }
  }

  /** The step is a pass that saw the run finished and got that written. */
  predicate SawEnd(w: World, step: Step) {
    && step.ReconcileStep? && Looks(w, step.env) && step.env.written
    && step.env.describe.Info? && step.env.describe.status !in {Unspecified, Running}
  }

  lemma CompletionStep(w: World, step: Step)
    requires w.status.completion.None?
    ensures Next(w, step).status.completion == if SawEnd(w, step) then Some(w.now) else None
  {
    hide Reconcile, Looks;
    if step.ReconcileStep? { PassRecords(w, step.env); }
  }

  /** The run was seen finished at step `r`, which recorded its completion. */
  ghost predicate EndedAt(ws: seq<World>, steps: seq<Step>, r: nat)
    requires |ws| == |steps| + 1
  {
    r < |steps| && ws[r].status.completion.None? && SawEnd(ws[r], steps[r])
  }

  /**
   Over any run, a completion is recorded exactly when some earlier pass saw the run finished
   and got that written; that pass is the only one, and the time recorded is that pass's own.
   */
  lemma {:induction false} CompletionIsWhenSeen(ws: seq<World>, steps: seq<Step>, i: nat)
    requires IsRun(ws, steps) && i < |ws|
    ensures |ws| == |steps| + 1
    ensures ws[i].status.completion.Some? <==> exists r: nat :: r < i && EndedAt(ws, steps, r)
    ensures forall r: nat :: r < i && EndedAt(ws, steps, r) ==> ws[i].status.completion == Some(ws[r].now)
  {
    hide Next, Allowed, Sane, SawEnd;
    StepOf(ws, steps, i);
    if i > 0 {
      CompletionIsWhenSeen(ws, steps, i - 1);
      AlwaysSane(ws, steps, i - 1);
      StepOf(ws, steps, i - 1);
      hide IsRun;
      if ws[i - 1].status.completion.Some? {
        StepFacts(ws[i - 1], steps[i - 1]);
        var r: nat :| r < i - 1 && EndedAt(ws, steps, r);
        assert r < i && EndedAt(ws, steps, r);
      } else {
        CompletionStep(ws[i - 1], steps[i - 1]);
        if SawEnd(ws[i - 1], steps[i - 1]) { assert EndedAt(ws, steps, i - 1); }
      }
    }
  }

  /** A pass asks for the deletion of a live resource exactly when it leaves it finished and its TTL has run out by then. */
  lemma TtlDeletesExactly(w: World, env: Env)
    requires !w.deleting
    ensures var s := Reconcile(w, env).world.status;
            Reconcile(w, env).world.deleting <==>
              && Drives(w, env) && s.completion.Some? && !env.ttlDeleteFails
              && w.spec.ttl.Some? && w.now >= s.completion.value + w.spec.ttl.value
  {
    hide PhaseFromStatus, Permits;
  }

  /**
   Over any run: the operator asks for the deletion of a resource exactly in a pass that drives
   it and gets the request accepted, once the TTL has run out since the pass that saw the run
   finished, which may be that same pass.
   */
  lemma DeletedExactlyAfterTtl(ws: seq<World>, steps: seq<Step>, k: nat)
    requires IsRun(ws, steps) && k < |steps| && steps[k].ReconcileStep? && !ws[k].deleting
    ensures |ws| == |steps| + 1
    ensures ws[k + 1].deleting <==>
              && Drives(ws[k], steps[k].env) && !steps[k].env.ttlDeleteFails && ws[k].spec.ttl.Some?
              && exists r: nat :: r <= k && EndedAt(ws, steps, r) && ws[k].now >= ws[r].now + ws[k].spec.ttl.value
  {
    hide Reconcile, Allowed, EndedAt, Drives;
    assert |ws| == |steps| + 1;
    StepOf(ws, steps, k);
    hide IsRun;
    TtlDeletesExactly(ws[k], steps[k].env);
    CompletionIsWhenSeen(ws, steps, k + 1);
    assert ws[k + 1].status == Reconcile(ws[k], steps[k].env).world.status;
    if r: nat :| r <= k && EndedAt(ws, steps, r) && ws[k].spec.ttl.Some? && ws[k].now >= ws[r].now + ws[k].spec.ttl.value {
      assert r < k + 1 && EndedAt(ws, steps, r);
    }
    if ws[k + 1].status.completion.Some? {
      var r: nat :| r < k + 1 && EndedAt(ws, steps, r);
      assert r <= k;
    }
  }

  // ----- cancellation under the finalizer -----

  /** A recorded run that is not known to be finished, under a policy that must be applied on deletion. */
  predicate MustStop(w: World) {
    w.status.runID != "" && w.status.completion.None? && w.spec.cancellation != Abandon
  }

  function StopCall(w: World): Call {
    if w.spec.cancellation == CancelRun then CancelCall(w.status.runID) else TerminateCall(w.status.runID)
  }

  /**
   On a resource being deleted, a pass removes the finalizer exactly when the removal is
   accepted and: the target is gone, or the target answers and either nothing must be
   stopped or the stop call succeeded or reported not-found.  It makes the stop call exactly
   when the target answers and a recorded, unfinished run must be stopped, and no other call.
   */
  lemma FinalizerGoesExactlyWhenStopped(w: World, env: Env)
    requires w.deleting && w.finalizer && !w.gone
    ensures !Reconcile(w, env).world.finalizer
       <==> && !env.removeFinalizerFails
            && (|| env.target.TargetNotFound?
                || (&& env.target.Target? && !env.clientFails
                    && (MustStop(w) ==> env.control != ControlFails)))
    ensures Reconcile(w, env).calls == if env.target.Target? && !env.clientFails && MustStop(w) then [StopCall(w)] else []
  {
  }

  /** The step that let a deleted resource go: the target was gone, nothing had to be stopped, or the stop call was answered. */
  ghost predicate LetGo(w: World, step: Step, runID: string) {
    && step.ReconcileStep? && w.deleting && w.finalizer && w.status.runID == runID
    && (|| step.env.target.TargetNotFound?
        || w.spec.cancellation == Abandon
        || (CallsAt(w, step) == [StopCall(w)] && step.env.control != ControlFails))
  }

  /** A recorded run keeps its resource under the finalizer until it is gone, and a resource is gone once it is deleted without one. */
  ghost predicate Guarded(w: World) {
    && (w.status.runID != "" ==> w.finalizer || w.gone)
    && (w.gone <==> w.deleting && !w.finalizer)
  }

  lemma GuardedStep(w: World, step: Step)
    requires Sane(w) && Guarded(w) && Allowed(w, step)
    ensures Guarded(Next(w, step))
    ensures w.gone ==> Next(w, step).gone && Next(w, step).status == w.status
    ensures Next(w, step).gone && !w.gone && Next(w, step).status.runID != "" && Next(w, step).status.completion.None?
            ==> LetGo(w, step, Next(w, step).status.runID)
  {
    hide PhaseFromStatus, IsTerminalStatus, Permits;
    if step.ReconcileStep? && w.deleting && w.finalizer && !w.gone { FinalizerGoesExactlyWhenStopped(w, step.env); }
  }

  lemma {:induction false} AlwaysGuarded(ws: seq<World>, steps: seq<Step>, i: nat)
    requires IsRun(ws, steps) && i < |ws|
    ensures Guarded(ws[i])
  {
    if i > 0 {
      AlwaysGuarded(ws, steps, i - 1);
      AlwaysSane(ws, steps, i - 1);
      StepOf(ws, steps, i - 1);
      hide IsRun, Next, Allowed, LetGo;
      GuardedStep(ws[i - 1], steps[i - 1]);
    }
  }

  /**
   Over any run: a resource that recorded a run and is gone before that run was seen to
   finish was let go by a pass that had its target gone, an Abandon policy, or an answered
   cancel or terminate call for exactly the recorded run.
   */
  lemma {:induction false} GoneOnlyAfterStop(ws: seq<World>, steps: seq<Step>, k: nat)
    requires IsRun(ws, steps) && k < |ws|
    requires ws[k].gone && ws[k].status.runID != "" && ws[k].status.completion.None?
    ensures exists j :: 0 <= j < k && LetGo(ws[j], steps[j], ws[k].status.runID)
  {
    hide Next, Allowed, LetGo, Guarded, Sane;
    assert k > 0;
    hide IsRun;
    AlwaysGuarded(ws, steps, k - 1);
    AlwaysSane(ws, steps, k - 1);
    StepOf(ws, steps, k - 1);
    GuardedStep(ws[k - 1], steps[k - 1]);
    if ws[k - 1].gone { GoneOnlyAfterStop(ws, steps, k - 1); }
  }

  // ----- three windows the code leaves open -----

  const READY := Target(true, Policy(true, [], []))

  /** A reconcile that starts the workflow, sees it running, and may lose its status write. */
  function StartingEnv(id: string, written: bool): Env {
    Env(READY, false, false, Accepted(id), Info(Running, None), written, ControlOk, false, false)
  }

  /**
   A server that forgets the execution before the run ID was persisted is asked to start it
   again: one lost status write and one forgotten request make two executions.
   */
  lemma ForgettingServerStartsTwice(w: World, a: string, b: string)
    requires w.status == NEW_STATUS && !w.finalizer && !w.deleting && !w.gone && w.server == Server(None, [])
    requires w.spec.paramsValid && a != "" && b != ""
    ensures var w1 := Next(w, ReconcileStep(StartingEnv(a, false)));
            var w2 := Next(w1, ServerForgets);
            var w3 := Next(w2, ReconcileStep(StartingEnv(b, true)));
            w3.server.created == [a, b] && w3.status.runID == b
  {
  }

  /**
   A workflow ID that is already in use makes the resource adopt an execution it did not
   create, and its deletion cancels that execution.
   */
  lemma AdoptedRunIsCancelled(w: World, b: string)
    requires w.status == NEW_STATUS && !w.finalizer && !w.deleting && !w.gone && w.server == Server(None, [])
    requires w.spec.paramsValid && b != "" && w.spec.cancellation == CancelRun
    ensures var adopting := ReconcileStep(StartingEnv(b, true).(start := AlreadyExists(b)));
            var w1 := Next(w, adopting);
            var w2 := Next(w1, UserDeletes);
            && Allowed(w, adopting) && w1.status.runID == b && w1.server.created == []
            && CallsAt(w2, adopting) == [CancelCall(b)] && Next(w2, adopting).gone
  {
  }

  /**
   A run whose status write was lost is not stopped on deletion: the finalizer goes without
   any cancel or terminate call, although an execution was created.
   */
  lemma UnrecordedRunIsNotStopped(w: World, a: string)
    requires w.status == NEW_STATUS && !w.finalizer && !w.deleting && !w.gone && w.server == Server(None, [])
    requires w.spec.paramsValid && a != "" && w.spec.cancellation == CancelRun
    ensures var w1 := Next(w, ReconcileStep(StartingEnv(a, false)));
            var w2 := Next(w1, UserDeletes);
            var last := ReconcileStep(StartingEnv(a, true));
            && w1.server.created == [a]
            && CallsAt(w2, last) == [] && Next(w2, last).gone
  {
  }
}
