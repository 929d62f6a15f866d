/**
 Namespace convergence (internal/controller/temporalnamespace_controller.go and the request
 builders of internal/temporal/client.go): registration, standalone failover and drift
 repair against a server whose treatment of blank fields is a parameter.
 */
module Namespaces {
  import opened Wrappers

  datatype Spec = Spec(
    description: string,
    owner: string,
    retention: Option<nat>,
    isGlobal: bool,
    clusters: seq<string>,
    active: string,
    driftDetection: string)

  /** What the server holds for a namespace, and what `Describe` reports of it. */
  datatype Info = Info(description: string, owner: string, retention: nat, isGlobal: bool, clusters: seq<string>, active: string)

  /** `namespaceParams`: 72 hours, in seconds, unless the spec says otherwise. */
  const DEFAULT_RETENTION: nat := 259200

  function ParamsOf(spec: Spec): Info {
    Info(spec.description, spec.owner, spec.retention.GetOr(DEFAULT_RETENTION), spec.isGlobal, spec.clusters, spec.active)
  }

  // ----- requests -----

  datatype Request =
    | Register(params: Info)
    | Update(info: Option<(string, string)>, retention: Option<nat>, clusters: seq<string>, active: string)

  function UpdateRequest(params: Info): Request {
    Update(Some((params.description, params.owner)), Some(params.retention), params.clusters, "")
  }

  function FailoverRequest(active: string): Request {
    Update(None, None, [], active)
  }

  /** An active-cluster change together with any other field: the form the server rejects. */
  predicate Mixes(r: Request) {
    r.Update? && r.active != "" && (r.info.Some? || r.retention.Some? || r.clusters != [])
  }

  // ----- the server -----

  /**
   What the server is free to do: leave a text field alone when an update carries it blank,
   and fill in the clusters of a registration that names none.
   */
  datatype Rules = Rules(blankKeeps: bool, defaultClusters: seq<string>, defaultActive: string)

  function Written(rules: Rules, requested: string, current: string): string {
    if rules.blankKeeps && requested == "" then current else requested
  }

  /** The effect of an accepted request. */
  function Apply(rules: Rules, state: Option<Info>, r: Request): Option<Info> {
    match r
    case Register(p) =>
      if state.Some? then state
      else Some(p.(clusters := if p.clusters == [] then rules.defaultClusters else p.clusters,
                   active := if p.active == "" then rules.defaultActive else p.active))
    case Update(info, retention, clusters, active) =>
      if state.None? then None
      else
        var s := state.value;
        Some(Info(if info.Some? then Written(rules, info.value.0, s.description) else s.description,
                  if info.Some? then Written(rules, info.value.1, s.owner) else s.owner,
                  retention.GetOr(s.retention),
                  s.isGlobal,
                  if clusters != [] then clusters else s.clusters,
                  if active != "" then active else s.active))
  }

  /** A describe call: it may fail, and lists the clusters in an order of its own. */
  datatype Listing = Listed(order: seq<string>) | Unavailable

  datatype Described = Found(info: Info) | NotFound | DescribeError

  function Reordered(clusters: seq<string>, order: seq<string>): seq<string> {
    if multiset(order) == multiset(clusters) then order else clusters
  }

  function Describe(state: Option<Info>, listing: Listing): Described {
    if listing.Unavailable? then DescribeError
    else if state.None? then NotFound
    else Found(state.value.(clusters := Reordered(state.value.clusters, listing.order)))
  }

  // ----- one pass -----

  predicate Drifted(params: Info, info: Info) {
    || (params.clusters != [] && multiset(params.clusters) != multiset(info.clusters))
    || params.description != info.description
    || params.owner != info.owner
    || params.retention != info.retention
  }

  /** The replies of one pass: the describe calls in order, and whether each mutation is accepted. */
  datatype Env = Env(first: Listing, second: Listing, third: Listing, registers: bool, failsOver: bool, updates: bool)

  /** The server afterwards, the accepted requests in order, what the pass last observed, and whether it failed over. */
  datatype Outcome = Outcome(state: Option<Info>, requests: seq<Request>, info: Option<Info>, failover: bool)

  predicate NeedsFailover(spec: Spec, info: Info) {
    spec.isGlobal && spec.active != "" && spec.active != info.active
  }

  function Refreshed(info: Info, d: Described): Info {
    if d.Found? then d.info else info
  }

  /** `ensureRegistered`; an outcome without info is an error return. */
  function EnsureRegistered(rules: Rules, spec: Spec, state: Option<Info>, env: Env): Outcome {
    match Describe(state, env.first)
    case DescribeError => Outcome(state, [], None, false)
    case NotFound =>
      if !env.registers then Outcome(state, [], None, false)
      else
        var registered := Apply(rules, state, Register(ParamsOf(spec)));
        var seen := Describe(registered, env.second);
        Outcome(registered, [Register(ParamsOf(spec))], if seen.Found? then Some(seen.info) else None, false)
    case Found(info) =>
      if NeedsFailover(spec, info) then
        if !env.failsOver then Outcome(state, [], None, false)
        else
          var request := FailoverRequest(spec.active);
          var moved := Apply(rules, state, request);
          RepairDrift(rules, spec, moved, env, Refreshed(info, Describe(moved, env.second)), [request])
      else RepairDrift(rules, spec, state, env, info, [])
  }

  function RepairDrift(rules: Rules, spec: Spec, state: Option<Info>, env: Env, info: Info, requests: seq<Request>): Outcome {
    if spec.driftDetection != "ignore" && Drifted(ParamsOf(spec), info) then
      if !env.updates then Outcome(state, requests, None, false)
      else
        var request := UpdateRequest(ParamsOf(spec));
        var repaired := Apply(rules, state, request);
        Outcome(repaired, requests + [request], Some(Refreshed(info, Describe(repaired, env.third))), requests != [])
    else Outcome(state, requests, Some(info), requests != [])
  }

  /** Every call of the pass is answered, except that the refreshing describes may fail. */
  predicate Accepting(env: Env) {
    env.first.Listed? && env.registers && env.failsOver && env.updates
  }

  // ----- convergence -----

  /**
   What a blank spec field asks for is out of reach exactly when the server keeps a field
   that an update leaves blank and holds a non-blank one.
   */
  predicate BlankStuck(rules: Rules, spec: Spec, state: Info) {
    rules.blankKeeps && ((spec.description == "" && state.description != "") || (spec.owner == "" && state.owner != ""))
  }

  /** Reordering is invisible to the drift check. */
  lemma OrderIsIgnored(params: Info, state: Info, order: seq<string>)
    ensures Drifted(params, state.(clusters := Reordered(state.clusters, order))) <==> Drifted(params, state)
  {
  }

  /** The server holds what the spec asks for, apart from the active cluster; clusters count as a multiset, and only if any are named. */
  predicate Agrees(spec: Spec, state: Info) {
    && spec.description == state.description && spec.owner == state.owner
    && state.retention == spec.retention.GetOr(72 * 3600)
    && (spec.clusters != [] ==> multiset(spec.clusters) == multiset(state.clusters))
  }

  /** The server after an accepting pass over a registered namespace, field by field, whatever the refreshing describes said. */
  lemma AcceptedPass(rules: Rules, spec: Spec, state: Info, env: Env)
    requires Accepting(env)
    ensures var moved := state.(active := if spec.isGlobal && spec.active != "" then spec.active else state.active);
            EnsureRegistered(rules, spec, Some(state), env).state
            == Some(if spec.driftDetection == "ignore" || Agrees(spec, state) then moved
                    else moved.(description := if spec.description == "" && rules.blankKeeps then state.description else spec.description,
                                owner := if spec.owner == "" && rules.blankKeeps then state.owner else spec.owner,
                                retention := spec.retention.GetOr(72 * 3600),
                                clusters := if spec.clusters != [] then spec.clusters else state.clusters))
  {
    var p := ParamsOf(spec);
    OrderIsIgnored(p, state, env.first.order);
    if NeedsFailover(spec, state) {
      var moved := state.(active := spec.active);
      assert Apply(rules, Some(state), FailoverRequest(spec.active)) == Some(moved);
      if env.second.Listed? { OrderIsIgnored(p, moved, env.second.order); }
    }
  }

  /** A pass mutates nothing exactly when neither a failover nor a repair is due. */
  lemma QuietPass(rules: Rules, spec: Spec, state: Info, env: Env)
    requires Accepting(env)
    ensures EnsureRegistered(rules, spec, Some(state), env).requests == []
       <==> !NeedsFailover(spec, state) && (spec.driftDetection == "ignore" || !Drifted(ParamsOf(spec), state))
  {
    var p := ParamsOf(spec);
    OrderIsIgnored(p, state, env.first.order);
    if NeedsFailover(spec, state) {
      var moved := state.(active := spec.active);
      assert Apply(rules, Some(state), FailoverRequest(spec.active)) == Some(moved);
    }
  }

  /**
   Registering a missing namespace gives the server exactly what the spec says, with a
   retention of 72 hours unless it names one and the server's own choice of clusters and active
   cluster where it names none; and it leaves nothing for any later pass to do.
   */
  lemma RegistrationConverges(rules: Rules, spec: Spec, env: Env, next: Env)
    requires Accepting(env) && Accepting(next)
    ensures var registered := EnsureRegistered(rules, spec, None, env).state;
            && registered.Some?
            && registered.value.description == spec.description && registered.value.owner == spec.owner
            && registered.value.retention == spec.retention.GetOr(72 * 3600)
            && registered.value.isGlobal == spec.isGlobal
            && registered.value.clusters == (if spec.clusters == [] then rules.defaultClusters else spec.clusters)
            && registered.value.active == (if spec.active == "" then rules.defaultActive else spec.active)
            && EnsureRegistered(rules, spec, registered, next).requests == []
  {
    var p := ParamsOf(spec);
    var registered := Apply(rules, None, Register(p)).value;
    QuietPass(rules, spec, registered, next);
  }

  /** What any pass leaves on the server, whatever is answered: the same globality, or a namespace as the spec describes it. */
  lemma PassLeaves(rules: Rules, spec: Spec, state: Option<Info>, env: Env)
    ensures var after := EnsureRegistered(rules, spec, state, env).state;
            && (state.Some? ==> after.Some? && after.value.isGlobal == state.value.isGlobal)
            && (state.None? && after.Some? ==>
                  && after.value.description == spec.description && after.value.owner == spec.owner
                  && after.value.retention == spec.retention.GetOr(72 * 3600) && after.value.isGlobal == spec.isGlobal
                  && (spec.clusters != [] ==> after.value.clusters == spec.clusters)
                  && (spec.active != "" ==> after.value.active == spec.active))
  {
  }

  /** Passes over an edited spec: each pass has the spec of its time. */
  function AfterEdits(rules: Rules, state: Option<Info>, passes: seq<(Spec, Env)>): Option<Info>
    decreases |passes|
  {
    if passes == [] then state
    else AfterEdits(rules, EnsureRegistered(rules, passes[0].0, state, passes[0].1).state, passes[1..])
  }

  /** A namespace once registered stays registered and stays local or global, whatever later specs say and whatever is answered. */
  lemma {:induction false} GlobalityIsFinal(rules: Rules, state: Info, passes: seq<(Spec, Env)>)
    ensures var after := AfterEdits(rules, Some(state), passes);
            after.Some? && after.value.isGlobal == state.isGlobal
    decreases |passes|
  {
    if passes != [] {
      PassLeaves(rules, passes[0].0, Some(state), passes[0].1);
      hide EnsureRegistered;
      GlobalityIsFinal(rules, EnsureRegistered(rules, passes[0].0, Some(state), passes[0].1).state.value, passes[1..]);
    }
  }

  /**
   One pass converges exactly when no blank field is stuck: after a drift-reconciling pass
   with accepted calls, the next pass mutates nothing, in whatever order either pass saw the
   clusters and whether or not its refreshing describes succeeded.
   */
  lemma OnePassConvergesExactly(rules: Rules, spec: Spec, state: Info, env: Env, next: Env)
    requires Accepting(env) && Accepting(next)
    requires spec.driftDetection != "ignore"
    ensures var after := EnsureRegistered(rules, spec, Some(state), env).state;
            EnsureRegistered(rules, spec, after, next).requests == [] <==> !BlankStuck(rules, spec, state)
  {
    AcceptedPass(rules, spec, state, env);
    var after := EnsureRegistered(rules, spec, Some(state), env).state.value;
    QuietPass(rules, spec, after, next);
  }

  /** What the server holds after the passes, one after the other. */
  function AfterPasses(rules: Rules, spec: Spec, state: Option<Info>, envs: seq<Env>): Option<Info>
    decreases |envs|
  {
    if envs == [] then state else AfterPasses(rules, spec, EnsureRegistered(rules, spec, state, envs[0]).state, envs[1..])
  }

  /** A blank field that is stuck stays stuck, and none gets stuck. */
  lemma StuckStays(rules: Rules, spec: Spec, state: Info, env: Env)
    requires Accepting(env)
    ensures var after := EnsureRegistered(rules, spec, Some(state), env).state;
            after.Some? && (BlankStuck(rules, spec, after.value) <==> BlankStuck(rules, spec, state))
  {
    AcceptedPass(rules, spec, state, env);
  }

  /** However many accepted passes went before, one at least, the next one mutates nothing exactly when no blank field was stuck at first. */
  lemma {:induction false} NeverSettlesExactly(rules: Rules, spec: Spec, state: Info, envs: seq<Env>, next: Env)
    requires |envs| > 0 && (forall i :: 0 <= i < |envs| ==> Accepting(envs[i])) && Accepting(next)
    requires spec.driftDetection != "ignore"
    ensures EnsureRegistered(rules, spec, AfterPasses(rules, spec, Some(state), envs), next).requests == []
       <==> !BlankStuck(rules, spec, state)
    decreases |envs|
  {
    hide EnsureRegistered, BlankStuck, Accepting;
    StuckStays(rules, spec, state, envs[0]);
    var after := EnsureRegistered(rules, spec, Some(state), envs[0]).state;
    if |envs| == 1 {
      assert AfterPasses(rules, spec, after, envs[1..]) == after;
      OnePassConvergesExactly(rules, spec, state, envs[0], next);
    } else {
      NeverSettlesExactly(rules, spec, after.value, envs[1..], next);
    }
  }

  /** With drift detection off, one pass still settles the active cluster and nothing else changes. */
  lemma IgnoringDriftOnlyFailsOver(rules: Rules, spec: Spec, state: Info, env: Env, next: Env)
    requires Accepting(env) && Accepting(next)
    requires spec.driftDetection == "ignore"
    ensures var after := EnsureRegistered(rules, spec, Some(state), env).state;
            && after == Some(state.(active := if NeedsFailover(spec, state) then spec.active else state.active))
            && EnsureRegistered(rules, spec, after, next).requests == []
  {
    AcceptedPass(rules, spec, state, env);
    QuietPass(rules, spec, EnsureRegistered(rules, spec, Some(state), env).state.value, next);
  }

  /** A quiet drift-reconciling pass means the server agrees with the spec, and a disagreement is always acted on. */
  lemma QuietMeansAgreement(rules: Rules, spec: Spec, state: Info, env: Env)
    requires Accepting(env) && spec.driftDetection != "ignore"
    ensures EnsureRegistered(rules, spec, Some(state), env).requests == []
       <==> && spec.description == state.description && spec.owner == state.owner
            && state.retention == spec.retention.GetOr(72 * 3600)
            && (spec.clusters != [] ==> multiset(spec.clusters) == multiset(state.clusters))
            && (spec.isGlobal && spec.active != "" ==> state.active == spec.active)
  {
    QuietPass(rules, spec, state, env);
  }

  /** Whatever is answered, no request of a pass mixes an active-cluster change with other fields, and a failover comes first. */
  lemma RequestsNeverMix(rules: Rules, spec: Spec, state: Option<Info>, env: Env)
    ensures var requests := EnsureRegistered(rules, spec, state, env).requests;
            && (forall r :: r in requests ==> !Mixes(r))
            && (forall i :: 0 <= i < |requests| && requests[i].Update? && requests[i].active != "" ==> i == 0)
            && |requests| <= 2
  {
  }

  /** A failed call ends the pass with no further request, and nothing unrequested reaches the server. */
  lemma StateFollowsRequests(rules: Rules, spec: Spec, state: Option<Info>, env: Env)
    ensures var o := EnsureRegistered(rules, spec, state, env);
            o.state == ApplyAll(rules, state, o.requests)
  {
    var d := Describe(state, env.first);
    if d.Found? && NeedsFailover(spec, d.info) && env.failsOver {
      var f := FailoverRequest(spec.active);
      var u := UpdateRequest(ParamsOf(spec));
      assert [f] + [u] == [f, u];
      assert ApplyAll(rules, state, [f]) == Apply(rules, state, f);
      AppliedInTurn(rules, state, f, u);
    }
  }

  function ApplyAll(rules: Rules, state: Option<Info>, requests: seq<Request>): Option<Info>
    decreases |requests|
  {
    if requests == [] then state else ApplyAll(rules, Apply(rules, state, requests[0]), requests[1..])
  }

  lemma AppliedInTurn(rules: Rules, state: Option<Info>, r: Request, q: Request)
    ensures ApplyAll(rules, state, [r, q]) == Apply(rules, Apply(rules, state, r), q)
  {
    assert [r, q][1..] == [q];
    assert ApplyAll(rules, Apply(rules, state, r), [q]) == Apply(rules, Apply(rules, state, r), q);
  }

  // ----- status -----

  datatype Replication = Replication(
    isGlobal: bool,
    active: string,
    clusters: seq<string>,
    inProgress: bool,
    lastFailover: Option<nat>)

  /** `applyReplicationStatus`. */
  function ApplyReplicationStatus(spec: Spec, before: Option<Replication>, info: Option<Info>, failover: bool, now: nat):
    Option<Replication>
  {
    if !spec.isGlobal || info.None? then before
    else
      var last := if failover then Some(now) else if before.Some? then before.value.lastFailover else None;
      Some(Replication(info.value.isGlobal, info.value.active, info.value.clusters,
                       spec.active != "" && info.value.active != spec.active, last))
  }

  /** Equal but for the order of the clusters. */
  predicate SameInfo(a: Info, b: Info) {
    a == b.(clusters := a.clusters) && multiset(a.clusters) == multiset(b.clusters)
  }

  /**
   A pass over a missing namespace, whatever is answered: it registers it exactly when the
   describe says it is missing and the registration is accepted, never reports a failover, and
   returns an error exactly when one of its three calls failed; otherwise it reports what the
   server now holds.
   */
  lemma RegistrationReports(rules: Rules, spec: Spec, env: Env)
    ensures var o := EnsureRegistered(rules, spec, None, env);
            && (o.state.Some? <==> env.first.Listed? && env.registers)
            && (o.state.Some? <==> o.requests != []) && |o.requests| <= 1
            && !o.failover
            && (o.info.Some? <==> env.first.Listed? && env.registers && env.second.Listed?)
            && (o.info.Some? ==> SameInfo(o.info.value, o.state.value))
  {
  }

  /** The status of a global namespace repeats the report field by field; a local one has none. */
  lemma StatusRepeatsReport(spec: Spec, before: Option<Replication>, info: Option<Info>, failover: bool, now: nat)
    ensures var status := ApplyReplicationStatus(spec, before, info, failover, now);
            if spec.isGlobal && info.Some? then
              && status.Some? && status.value.isGlobal == info.value.isGlobal && status.value.active == info.value.active
              && status.value.clusters == info.value.clusters
            else status == before
  {
  }

  /** The pass sees drift it is meant to repair. */
  predicate RepairDue(spec: Spec, state: Info) {
    spec.driftDetection != "ignore" && !Agrees(spec, state)
  }

  /** A global namespace is active elsewhere than the spec says. */
  predicate FailoverDue(spec: Spec, state: Info) {
    spec.isGlobal && spec.active != "" && state.active != spec.active
  }

  /** The pass reads the namespace, and gets a failover accepted. */
  predicate FailsOver(spec: Spec, state: Info, env: Env) {
    env.first.Listed? && FailoverDue(spec, state) && env.failsOver
  }

  /** The pass returns an error: the first read, a failover that is due, or a repair that is due was refused. */
  predicate Errs(spec: Spec, state: Info, env: Env) {
    || env.first.Unavailable?
    || (FailoverDue(spec, state) && !env.failsOver)
    || (RepairDue(spec, state) && !env.updates)
  }

  /** Which pass over a registered namespace returns an error, and which reports a failover, whatever is answered. */
  lemma PassReports(rules: Rules, spec: Spec, state: Info, env: Env)
    ensures var o := EnsureRegistered(rules, spec, Some(state), env);
            && (o.info.None? <==> Errs(spec, state, env))
            && (o.failover <==> FailsOver(spec, state, env) && !Errs(spec, state, env))
            && ((o.requests != [] && o.requests[0] == FailoverRequest(spec.active)) <==> FailsOver(spec, state, env))
            && (o.info.Some? ==>
                  (spec.active != "" && o.info.value.active != spec.active <==>
                     if FailsOver(spec, state, env) then
                       env.second.Unavailable? && (!RepairDue(spec, state) || env.third.Unavailable?)
                     else spec.active != "" && state.active != spec.active))
  {
    var p := ParamsOf(spec);
    if env.first.Listed? { OrderIsIgnored(p, state, env.first.order); }
    if FailsOver(spec, state, env) {
      var moved := state.(active := spec.active);
      assert Apply(rules, Some(state), FailoverRequest(spec.active)) == Some(moved);
      if env.second.Listed? { OrderIsIgnored(p, moved, env.second.order); }
    }
  }

  /**
   What a pass over a registered namespace reports, when it reports, is what the server held
   when the last describe of the pass was answered: at its end if nothing changed after that
   describe, else after the failover or before the pass.
   */
  lemma ReportIsObserved(rules: Rules, spec: Spec, state: Info, env: Env)
    requires !Errs(spec, state, env)
    ensures var o := EnsureRegistered(rules, spec, Some(state), env);
            var failedOver := FailsOver(spec, state, env);
            && o.info.Some? && o.state.Some?
            && SameInfo(o.info.value,
                 if RepairDue(spec, state) && env.third.Listed? then o.state.value
                 else if failedOver && env.second.Listed? then state.(active := spec.active)
                 else state)
            && (!RepairDue(spec, state) ==> o.state.value == if failedOver then state.(active := spec.active) else state)
  {
    hide Apply, RepairDrift, Agrees;
    var seen := Describe(Some(state), env.first).info;
    SameDue(spec, state, seen);
    if FailsOver(spec, state, env) {
      var moved := state.(active := spec.active);
      var request := FailoverRequest(spec.active);
      FailoverMoves(rules, state, spec.active);
      var info := Refreshed(seen, Describe(Some(moved), env.second));
      SameDue(spec, state, info);
      RepairReports(rules, spec, moved, env, info, [request]);
    } else {
      RepairReports(rules, spec, state, env, seen, []);
    }
  }

  lemma FailoverMoves(rules: Rules, state: Info, active: string)
    requires active != ""
    ensures Apply(rules, Some(state), FailoverRequest(active)) == Some(state.(active := active))
  {
  }

  /** The second half of a pass reports what it found, or what it left if a repair was due and described. */
  lemma RepairReports(rules: Rules, spec: Spec, state: Info, env: Env, info: Info, requests: seq<Request>)
    requires !RepairDue(spec, info) || env.updates
    ensures var o := RepairDrift(rules, spec, Some(state), env, info, requests);
            && o.info.Some? && o.state.Some?
            && SameInfo(o.info.value, if RepairDue(spec, info) && env.third.Listed? then o.state.value else info)
            && (!RepairDue(spec, info) ==> o.state.value == state)
  {
    hide Agrees, Drifted;
    DriftedExactly(spec, info);
  }

  /** Neither the order of the clusters nor the active cluster makes a repair due. */
  lemma SameDue(spec: Spec, state: Info, info: Info)
    requires SameInfo(info.(active := state.active), state)
    ensures RepairDue(spec, info) <==> RepairDue(spec, state)
  {
  }

  lemma DriftedExactly(spec: Spec, state: Info)
    ensures Drifted(ParamsOf(spec), state) <==> !Agrees(spec, state)
  {
  }

  /**
   The failover status after any pass over a registered global namespace.  A pass that
   returns an error leaves it alone.  Otherwise a failover is in progress exactly when this
   pass issued one and no describe after it succeeded, and the failover time is this pass's
   exactly when it issued one.
   */
  lemma FailoverStatusIsExact(rules: Rules, spec: Spec, state: Info, env: Env, before: Option<Replication>, now: nat)
    requires spec.isGlobal
    ensures var o := EnsureRegistered(rules, spec, Some(state), env);
            var status := ApplyReplicationStatus(spec, before, o.info, o.failover, now);
            && (Errs(spec, state, env) ==> status == before)
            && (!Errs(spec, state, env) ==>
                  && status.Some?
                  && (status.value.inProgress <==>
                        && FailsOver(spec, state, env) && env.second.Unavailable?
                        && (!RepairDue(spec, state) || env.third.Unavailable?))
                  && (status.value.lastFailover ==
                        if FailsOver(spec, state, env) then Some(now)
                        else if before.Some? then before.value.lastFailover else None))
  {
    hide EnsureRegistered, Drifted;
    PassReports(rules, spec, state, env);
  }

  /**
   An accepted failover goes unrecorded exactly when the repair that follows it in the same
   pass is due and refused: the request was issued, the server has moved, and the status keeps
   its old failover time.
   */
  lemma FailoverUnrecordedExactly(rules: Rules, spec: Spec, state: Info, env: Env, before: Option<Replication>, now: nat)
    requires spec.isGlobal && FailsOver(spec, state, env) && (before.None? || before.value.lastFailover != Some(now))
    ensures var o := EnsureRegistered(rules, spec, Some(state), env);
            var status := ApplyReplicationStatus(spec, before, o.info, o.failover, now);
            && o.state.Some? && o.state.value.active == spec.active
            && o.requests != [] && o.requests[0] == FailoverRequest(spec.active)
            && (status.None? || status.value.lastFailover != Some(now) <==> RepairDue(spec, state) && !env.updates)
  {
    PassReports(rules, spec, state, env);
  }
}
