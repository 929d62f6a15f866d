/**
 The inspector Job (internal/persistence/jobinspector.go and `ensureInspectorJob`)
 heals itself: whatever state it is found in, a cluster that ends running Jobs and
 removes finished and deleted ones leads it to a readable answer or a fresh Job.
 */
module InspectorProgress {
  import opened Wrappers
  import opened ClusterTypes
  import opened Persistence

  /** No API call made for the inspector fails. */
  predicate Clean(env: StoreEnv) {
    env.inspector == Api(false, false, false, false) && !env.podListFails
  }

  /** The pass got what the inspector is for: an answer, or a Job newly started to produce one. */
  ghost predicate Fruitful(spec: Spec, before: Objects, r: InspectionResult, store: Store) {
    || r.inspection.Answered?
    || (store !in before.inspectors && store in r.objects.inspectors
        && r.objects.inspectors[store] == BuildInspectorJob(spec, store))
  }

  /** How many events separate the Job from its replacement, if it never answers. */
  function Distance(objects: Objects, store: Store): nat {
    if store !in objects.inspectors then 0
    else if objects.inspectors[store].deleting then 1
    else if JobIsTerminal(objects.inspectors[store]) then 2
    else 3
  }

  // ----- single events -----

  /** A spent Job, finished with nothing to read, is deleted; no other Job is, and no other store's. */
  lemma SpentJobIsDeletedExactly(spec: Spec, objects: Objects, env: StoreEnv, store: Store)
    requires store in objects.inspectors && !objects.inspectors[store].deleting && Clean(env)
    ensures var after := InspectOnce(spec, objects, env, store).objects.inspectors;
            && store in after
            && (after[store].deleting <==> FirstMessage(objects.PodsOf(store)).None? && JobIsTerminal(objects.inspectors[store]))
            && (!after[store].deleting ==> after == objects.inspectors)
            && (forall s :: s != store ==> (s in after <==> s in objects.inspectors)
                                           && (s in after ==> after[s] == objects.inspectors[s]))
  {
  }

  /** No pass moves the Job away from its replacement, unless it starts a fresh one; API failures included. */
  lemma InspectingNeverRecedes(spec: Spec, objects: Objects, env: StoreEnv, store: Store)
    ensures var r := InspectOnce(spec, objects, env, store);
            Fruitful(spec, objects, r, store) || Distance(r.objects, store) <= Distance(objects, store)
  {
    hide FirstMessage;
  }

  /**
   An event in the life of an inspector Job; pods may come and go at any of them.  A refresh
   is the deletion that follows a successful update Job.
   */
  datatype Event =
    | Pass(env: StoreEnv)
    | JobEnds(conditions: seq<JobCondition>)
    | JobRemoved
    | PodsChange(pods: seq<Pod>)
    | Refresh(api: Api)

  /** Running Jobs end; Jobs that finished or are being deleted get removed. */
  predicate Possible(objects: Objects, store: Store, event: Event) {
    match event
    case Pass(_) => true
    case PodsChange(_) => true
    case Refresh(_) => true
    case JobEnds(conditions) => Distance(objects, store) == 3 && Ending(conditions).Some?
    case JobRemoved => Distance(objects, store) in {1, 2}
  }

  function After(spec: Spec, objects: Objects, store: Store, event: Event): Objects
    requires Possible(objects, store, event)
  {
    match event
    case Pass(env) => InspectOnce(spec, objects, env, store).objects
    case PodsChange(pods) => objects.(pods := objects.pods[store := pods])
    case JobEnds(conditions) =>
      objects.(inspectors := objects.inspectors[store := objects.inspectors[store].(conditions := conditions)])
    case JobRemoved => objects.(inspectors := objects.inspectors - {store})
    case Refresh(api) => DeleteInspectorJob(objects, api, store).GetOr(objects)
  }

  /** Events that bring the replacement closer: the environment's, a refresh, and a clean pass over a spent Job. */
  predicate Advances(objects: Objects, store: Store, event: Event) {
    match event
    case Pass(env) => Clean(env) && Distance(objects, store) == 2 && FirstMessage(objects.PodsOf(store)).None?
    case PodsChange(_) => false
    case Refresh(api) => !api.getFails && !api.deleteFails && Distance(objects, store) >= 2
    case _ => true
  }

  lemma AdvancingLowersDistance(spec: Spec, objects: Objects, store: Store, event: Event)
    requires Possible(objects, store, event)
    requires event.Pass? ==> !Fruitful(spec, objects, InspectOnce(spec, objects, event.env, store), store)
    ensures Distance(After(spec, objects, store, event), store) <= Distance(objects, store)
    ensures Advances(objects, store, event) ==> Distance(After(spec, objects, store, event), store) < Distance(objects, store)
  {
    match event {
      case Pass(env) =>
        InspectingNeverRecedes(spec, objects, env, store);
        if Advances(objects, store, event) { SpentJobIsDeletedExactly(spec, objects, env, store); }
      case PodsChange(_) =>
      case JobEnds(_) =>
      case JobRemoved =>
      case Refresh(_) =>
    }
  }

  // ----- whole histories -----

  ghost predicate IsHistory(spec: Spec, os: seq<Objects>, events: seq<Event>, store: Store) {
    && |os| == |events| + 1
    && forall i :: 0 <= i < |events| ==>
         Possible(os[i], store, events[i]) && os[i + 1] == After(spec, os[i], store, events[i])
  }

  /** No pass of the history was fruitful. */
  ghost predicate Fruitless(spec: Spec, os: seq<Objects>, events: seq<Event>, store: Store)
    requires |os| > |events|
  {
    forall i :: 0 <= i < |events| && events[i].Pass? ==>
      !Fruitful(spec, os[i], InspectOnce(spec, os[i], events[i].env, store), store)
  }

  function Advancing(os: seq<Objects>, events: seq<Event>, store: Store): nat
    requires |os| > |events|
  {
    if events == [] then 0
    else (if Advances(os[0], store, events[0]) then 1 else 0) + Advancing(os[1..], events[1..], store)
  }

  /**
   From any state, a history in which no pass was fruitful contains at most three advancing
   events, however many passes, failures, refreshes and pod changes lie between them.
   */
  lemma {:induction false} FruitlessHistoriesAreShort(spec: Spec, os: seq<Objects>, events: seq<Event>, store: Store)
    requires IsHistory(spec, os, events, store) && Fruitless(spec, os, events, store)
    ensures Advancing(os, events, store) + Distance(os[|events|], store) <= Distance(os[0], store) <= 3
    decreases |events|
  {
    if events != [] {
      assert Possible(os[0], store, events[0]) && os[1] == After(spec, os[0], store, events[0]);
      AdvancingLowersDistance(spec, os[0], store, events[0]);
      hide Possible, After, Advances, Fruitful, Distance, InspectOnce;
      var rest, later := events[1..], os[1..];
      forall i | 0 <= i < |rest| ensures Possible(later[i], store, rest[i]) && later[i + 1] == After(spec, later[i], store, rest[i]) {
        assert Possible(os[i + 1], store, events[i + 1]) && os[i + 2] == After(spec, os[i + 1], store, events[i + 1]);
      }
      FruitlessHistoriesAreShort(spec, later, rest, store);
    }
    DistanceBound(os[0], store);
  }

  lemma DistanceBound(objects: Objects, store: Store)
    ensures Distance(objects, store) <= 3
  {
  }

  /** In no state is there nothing to wait for: a clean pass is fruitful, or an advancing event is possible. */
  lemma NeverWedged(spec: Spec, objects: Objects, env: StoreEnv, store: Store)
    requires Clean(env)
    ensures || Fruitful(spec, objects, InspectOnce(spec, objects, env, store), store)
            || (exists event :: Possible(objects, store, event) && Advances(objects, store, event))
  {
    var d := Distance(objects, store);
    if d in {1, 2} {
      assert Possible(objects, store, JobRemoved) && Advances(objects, store, JobRemoved);
    } else if d == 3 {
      var ends := JobEnds([JobCondition(JobComplete, true)]);
      assert Possible(objects, store, ends) && Advances(objects, store, ends);
    }
  }

  // ----- how soon -----

  /**
   The environment does what is due before the next pass: a running Job ends, a deleted Job
   and one whose message cannot be decoded are removed, a finished one stays or is removed.
   */
  ghost predicate DueDone(before: Objects, after: Objects, store: Store) {
    match Distance(before, store)
    case 0 => store !in after.inspectors
    case 1 => store !in after.inspectors
    case 2 =>
      || store !in after.inspectors
      || (&& after.inspectors[store] == before.inspectors[store]
          && FirstMessage(before.PodsOf(store)) != Some(Garbage))
    case _ => Distance(after, store) == 2
  }

  /** A clean pass after what was due: fruitful, or it leaves a Job that the next round replaces. */
  lemma OneRound(spec: Spec, before: Objects, during: Objects, env: StoreEnv, store: Store)
    requires DueDone(before, during, store) && Clean(env)
    ensures var r := InspectOnce(spec, during, env, store);
            || Fruitful(spec, during, r, store)
            || Distance(r.objects, store) == 1
            || (Distance(r.objects, store) == 2 && FirstMessage(r.objects.PodsOf(store)) == Some(Garbage))
  {
    hide DueDone, FirstMessage;
    DueLeaves(before, during, store);
  }

  lemma DueLeaves(before: Objects, during: Objects, store: Store)
    requires DueDone(before, during, store)
    ensures store !in during.inspectors || Distance(during, store) == 2
  {
  }

  /** From any state whatsoever, two rounds of due events and clean passes yield an answer or a fresh Job. */
  lemma TwoRoundsSuffice(spec: Spec, o0: Objects, o1: Objects, env1: StoreEnv, o2: Objects, env2: StoreEnv, store: Store)
    requires DueDone(o0, o1, store) && Clean(env1)
    requires DueDone(InspectOnce(spec, o1, env1, store).objects, o2, store) && Clean(env2)
    ensures || Fruitful(spec, o1, InspectOnce(spec, o1, env1, store), store)
            || Fruitful(spec, o2, InspectOnce(spec, o2, env2, store), store)
  {
    OneRound(spec, o0, o1, env1, store);
    var mid := InspectOnce(spec, o1, env1, store).objects;
    if !Fruitful(spec, o1, InspectOnce(spec, o1, env1, store), store) {
      assert store !in o2.inspectors;
    }
  }
}
