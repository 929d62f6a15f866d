/**
 The workflow-run reconciler in its own imperative form: an in-memory copy of the resource's
 status is updated step by step and reaches the stored resource only through a status write.
 Each method is proved equal to the corresponding function of `WorkflowRuns`.
 */
module WorkflowRunReconciler {
  import opened Wrappers
  import opened WorkflowRuns

  method Contains(haystack: seq<string>, needle: string) returns (found: bool)
    ensures found <==> needle in haystack
  {
    for i := 0 to |haystack|
      invariant needle !in haystack[..i]
    {
      if haystack[i] == needle { return true; }
    }
    return false;
  }

  /** `checkWorkflowRunPolicy`; an empty allowlist admits everything. */
  method CheckPolicy(p: Policy, namespace: string, taskQueue: string) returns (ok: bool)
    ensures ok <==> Permits(p, namespace, taskQueue)
  {
    if !p.enabled { return false; }
    if |p.allowedNamespaces| > 0 {
      var found := Contains(p.allowedNamespaces, namespace);
      if !found { return false; }
    }
    if |p.allowedTaskQueues| > 0 {
      var found := Contains(p.allowedTaskQueues, taskQueue);
      if !found { return false; }
    }
    return true;
  }

  /** The stored resource with the server behind it, and the reconciler's in-memory copy of the status. */
  class RunReconciler {
    var stored: World
    var status: RunStatus
    var calls: seq<Call>

    constructor (w: World)
      ensures stored == w && status == w.status && calls == []
    {
      stored, status, calls := w, w.status, [];
    }

    /** `statusUpdate`; reports whether the write was accepted. */
    method StatusUpdate(env: Env) returns (ok: bool)
      modifies this`stored
      ensures ok == env.written
      ensures stored == if env.written then old(stored).(status := status) else old(stored)
    {
      if env.written { stored := stored.(status := status); }
      return env.written;
    }

    method StripFinalizer(env: Env)
      modifies this`stored
      ensures stored == RemoveFinalizer(old(stored), env)
    {
      if stored.finalizer && !env.removeFinalizerFails {
        stored := stored.(finalizer := false, gone := stored.deleting);
      }
    }

    /** `ttlCleanup`. */
    method CleanUp(env: Env)
      requires status.completion.Some? && stored.status == status
      modifies this`stored
      ensures stored == TtlCleanup(old(stored), env)
    {
      if stored.spec.ttl.None? { return; }
      var deadline := status.completion.value + stored.spec.ttl.value;
      if stored.now < deadline { return; }
      if !env.ttlDeleteFails { stored := RequestDelete(stored); }
    }

    /** The second half of `reconcileRun`, with the status write its caller makes after a transient error. */
    method Observe(env: Env)
      modifies this
      ensures stored == Refresh(old(stored), env, old(status))
      ensures calls == old(calls) + [DescribeCall]
    {
      calls := calls + [DescribeCall];
      match env.describe {
        case DescribeFails(transient) =>
          if transient { var _ := StatusUpdate(env); }
        case Info(s, failure) =>
          status := status.(phase := PhaseFromStatus(s));
          if !IsTerminalStatus(s) {
            var _ := StatusUpdate(env);
          } else {
            status := status.(completion := Some(stored.now));
            if failure.Some? { status := status.(failure := failure); }
            var ok := StatusUpdate(env);
            if ok { CleanUp(env); }
          }
      }
    }

    /** `reconcileRun`. */
    method Drive(env: Env, policy: Policy)
      requires status == stored.status && calls == []
      modifies this
      ensures Pass(stored, calls) == WorkflowRuns.ReconcileRun(old(stored), env, policy)
      ensures old(stored).status.completion.None? && stored.status.completion.Some? ==>
                stored.status.completion.value == old(stored).now
    {
      if status.completion.Some? {
        CleanUp(env);
        return;
      }
      if status.runID == "" {
        var ok := CheckPolicy(policy, stored.spec.namespace, stored.spec.taskQueue);
        if !ok || !stored.spec.paramsValid { return; }
        calls := calls + [StartCall(stored.spec.namespace, stored.spec.workflowID, stored.spec.taskQueue)];
        var started := StartedRunID(stored.server, env.start);
        stored := stored.(server := ServerStart(stored.server, env.start));
        if started.None? { return; }
        status := status.(runID := started.value, phase := "Running");
      }
      Observe(env);
    }

    /** `reconcileDelete`. */
    method Finalize(env: Env)
      requires status == stored.status && calls == []
      modifies this
      ensures Pass(stored, calls) == WorkflowRuns.ReconcileDelete(old(stored), env)
    {
      if !stored.finalizer { return; }
      if status.runID != "" && status.completion.None? {
        match stored.spec.cancellation {
          case CancelRun =>
            calls := calls + [CancelCall(status.runID)];
            if env.control == ControlFails { return; }
          case TerminateRun =>
            calls := calls + [TerminateCall(status.runID)];
            if env.control == ControlFails { return; }
          case Abandon =>
        }
      }
      StripFinalizer(env);
    }

    method Reconcile(env: Env)
      requires status == stored.status && calls == []
      modifies this
      ensures Pass(stored, calls) == WorkflowRuns.Reconcile(old(stored), env)
      ensures old(stored).status.completion.None? ==>
                stored.status.completion ==
                  if SawEnd(old(stored), ReconcileStep(env)) then Some(old(stored).now) else None
    {
      if stored.status.completion.None? { CompletionStep(stored, ReconcileStep(env)); }
      if stored.gone { return; }
      if !env.target.Target? {
        if stored.deleting && env.target.TargetNotFound? { StripFinalizer(env); }
        return;
      }
      if env.clientFails { return; }
      if stored.deleting {
        Finalize(env);
        return;
      }
      if !stored.finalizer {
        if env.addFinalizerFails { return; }
        stored := stored.(finalizer := true);
      }
      if !env.target.ready { return; }
      Drive(env, env.target.policy);
    }
  }
}
