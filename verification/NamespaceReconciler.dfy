/**
 The namespace reconciler's loops and ordered server mutations in their own imperative form,
 proved against the functions of `Namespaces`.
 */
module NamespaceReconciler {
  import opened Wrappers
  import opened Namespaces

  /** How often `s` occurs in `a`, as a map lookup with Go's zero for absent keys. */
  function Count(counts: map<string, int>, s: string): int {
    if s in counts then counts[s] else 0
  }

  /** The counts are what is left of `a` after taking `b` away, and `a` has enough of everything. */
  ghost predicate Remaining(counts: map<string, int>, a: multiset<string>, b: multiset<string>) {
    forall s :: Count(counts, s) == a[s] as int - b[s] as int >= 0
  }

  lemma CountUp(counts: map<string, int>, a: multiset<string>, s: string)
    requires Remaining(counts, a, multiset{})
    ensures Remaining(counts[s := Count(counts, s) + 1], a + multiset{s}, multiset{})
  {
  }

  lemma CountDown(counts: map<string, int>, a: multiset<string>, b: multiset<string>, s: string)
    requires Remaining(counts, a, b)
    ensures Count(counts, s) - 1 >= 0 ==> Remaining(counts[s := Count(counts, s) - 1], a, b + multiset{s})
    ensures Count(counts, s) - 1 < 0 ==> a[s] < (b + multiset{s})[s]
  {
  }

  lemma NothingRemains(counts: map<string, int>, a: multiset<string>, b: multiset<string>)
    requires Remaining(counts, a, b) && |a| == |b|
    ensures a == b
  {
    assert b <= a by {
      forall s ensures b[s] <= a[s] { assert Count(counts, s) == a[s] as int - b[s] as int; }
    }
    assert a == b + (a - b);
    assert |a - b| == 0;
  }

  lemma OneMore(a: seq<string>, i: nat)
    requires i < |a|
    ensures multiset(a[..i + 1]) == multiset(a[..i]) + multiset{a[i]}
  {
    assert a[..i + 1] == a[..i] + [a[i]];
  }

  lemma PrefixCount(a: seq<string>, i: nat, s: string)
    requires i <= |a|
    ensures multiset(a[..i])[s] <= multiset(a)[s]
  {
    assert a == a[..i] + a[i..];
  }

  /** `equalStringSets`: one loop counting up, one counting down and stopping at the first deficit. */
  method EqualStringSets(a: seq<string>, b: seq<string>) returns (equal: bool)
    ensures equal <==> multiset(a) == multiset(b)
  {
    if |a| != |b| {
      assert |multiset(a)| != |multiset(b)|;
      return false;
    }
    var counts: map<string, int> := map[];
    assert Remaining(counts, multiset(a[..0]), multiset{});
    hide Remaining;
    for i := 0 to |a|
      invariant Remaining(counts, multiset(a[..i]), multiset{})
    {
      OneMore(a, i);
      CountUp(counts, multiset(a[..i]), a[i]);
      counts := counts[a[i] := Count(counts, a[i]) + 1];
    }
    assert a[..|a|] == a;
    assert multiset(b[..0]) == multiset{};
    for i := 0 to |b|
      invariant Remaining(counts, multiset(a), multiset(b[..i]))
    {
      OneMore(b, i);
      CountDown(counts, multiset(a), multiset(b[..i]), b[i]);
      counts := counts[b[i] := Count(counts, b[i]) - 1];
      if counts[b[i]] < 0 {
        PrefixCount(b, i + 1, b[i]);
        return false;
      }
    }
    assert b[..|b|] == b;
    NothingRemains(counts, multiset(a), multiset(b));
    return true;
  }

  method NamespaceDrifted(params: Info, info: Info) returns (drifted: bool)
    ensures drifted <==> Drifted(params, info)
  {
    if |params.clusters| > 0 {
      var equal := EqualStringSets(params.clusters, info.clusters);
      if !equal { return true; }
    }
    return params.description != info.description || params.owner != info.owner || params.retention != info.retention;
  }

  /** The namespace service: what it holds and the requests it accepted. */
  class NamespaceServer {
    const rules: Rules
    var state: Option<Info>
    var requests: seq<Request>

    constructor (rules: Rules, state: Option<Info>)
      ensures this.rules == rules && this.state == state && requests == []
    {
      this.rules, this.state, requests := rules, state, [];
    }

    method Send(r: Request)
      modifies this
      ensures state == Apply(rules, old(state), r)
      ensures requests == old(requests) + [r]
    {
      state := Apply(rules, state, r);
      requests := requests + [r];
    }
  }

  /** `ensureRegistered`. */
  method EnsureRegistered(server: NamespaceServer, spec: Spec, env: Env) returns (info: Option<Info>, failover: bool)
    requires server.requests == []
    modifies server
    ensures Outcome(server.state, server.requests, info, failover)
         == Namespaces.EnsureRegistered(server.rules, spec, old(server.state), env)
    ensures old(server.state).Some? ==> server.state.Some? && server.state.value.isGlobal == old(server.state).value.isGlobal
    ensures old(server.state).None? && server.state.Some? ==>
              && server.state.value.description == spec.description && server.state.value.owner == spec.owner
              && server.state.value.retention == spec.retention.GetOr(72 * 3600)
              && server.state.value.isGlobal == spec.isGlobal
              && (spec.clusters != [] ==> server.state.value.clusters == spec.clusters)
              && (spec.active != "" ==> server.state.value.active == spec.active)
  {
    hide Apply;
    PassLeaves(server.rules, spec, server.state, env);
    var params := ParamsOf(spec);
    var described := Describe(server.state, env.first);
    info, failover := None, false;
    if described.NotFound? {
      if !env.registers { return; }
      server.Send(Register(params));
      described := Describe(server.state, env.second);
      if described.Found? { info := Some(described.info); }
      return;
    } else if described.DescribeError? {
      return;
    }
    var observed := described.info;
    if spec.isGlobal && params.active != "" && params.active != observed.active {
      if !env.failsOver { return; }
      server.Send(FailoverRequest(params.active));
      failover := true;
      var refreshed := Describe(server.state, env.second);
      if refreshed.Found? { observed := refreshed.info; }
    }
    if spec.driftDetection != "ignore" {
      var drifted := NamespaceDrifted(params, observed);
      if drifted {
        if !env.updates { return None, false; }
        server.Send(UpdateRequest(params));
        var refreshed := Describe(server.state, env.third);
        if refreshed.Found? { observed := refreshed.info; }
      }
    }
    return Some(observed), failover;
  }
}
