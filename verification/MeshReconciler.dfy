/**
 The connection controller's loops, over per-peer objects whose views are mutated
 in place.  Map iteration picks an arbitrary next key, so each result below holds
 for every iteration order.
 */
module MeshReconciler {
  import opened Wrappers
  import opened Mesh

  /** A dialed local peer and its current view of registered remotes. */
  class LocalPeer {
    var remotes: View

    constructor (remotes: View)
      ensures this.remotes == remotes
    {
      this.remotes := remotes;
    }
  }

  type Locals = map<string, LocalPeer>

  ghost function ViewsOf(locals: Locals): Views
    reads locals.Values
  {
    map name | name in locals :: locals[name].remotes
  }

  ghost predicate Separate(locals: Locals) {
    forall a, b :: a in locals && b in locals && a != b ==> locals[a] != locals[b]
  }

  /** `dialLocals`. */
  method Dial(peers: seq<Peer>, listings: map<string, View>) returns (locals: Locals)
    ensures Separate(locals) && forall name :: name in locals ==> fresh(locals[name])
    ensures ViewsOf(locals) == DialLocals(peers, listings)
  {
    locals := map[];
    var i := 0;
    while i < |peers|
      invariant 0 <= i <= |peers|
      invariant Separate(locals) && forall name :: name in locals ==> fresh(locals[name])
      invariant ViewsOf(locals) == DialLocals(peers[..i], listings)
    {
      assert peers[..i + 1][..i] == peers[..i];
      var p := peers[i];
      if p.local && p.ready && p.address != "" && p.name in listings {
        var peer := new LocalPeer(listings[p.name]);
        locals := locals[p.name := peer];
      }
      i := i + 1;
    }
    assert peers[..|peers|] == peers;
  }

  /** The inner loop of `upsertRemotes`, for one dialed peer; also reports the RPCs it issued. */
  method UpsertOn(name: string, l: LocalPeer, peers: seq<Peer>, failures: Failures) returns (issued: seq<Upsert>)
    modifies l
    ensures l.remotes == UpsertView(old(l.remotes), name, peers, failures)
    ensures issued == Issued(old(l.remotes), name, peers, failures)
    ensures Distinct(peers) ==> forall p :: p in peers ==> Entry(l.remotes, p.name) == Left(old(l.remotes), name, p, failures)
    ensures Distinct(peers) ==>
              forall u :: u in issued <==> exists p :: p in peers && IsDue(old(l.remotes), name, p) && u == Upsert(p.address, p.enable)
  {
    if Distinct(peers) {
      PassLeaves(l.remotes, name, peers, failures);
      IssuedExactly(l.remotes, name, peers, failures);
    }
    hide IsDue, Left, Distinct;
    issued := [];
    var i := 0;
    while i < |peers|
      invariant 0 <= i <= |peers|
      invariant l.remotes == UpsertView(old(l.remotes), name, peers[..i], failures)
      invariant issued == Issued(old(l.remotes), name, peers[..i], failures)
    {
      assert peers[..i + 1][..i] == peers[..i];
      var other := peers[i];
      i := i + 1;
      if other.name == name || other.address == "" {
        continue;
      }
      if other.name in l.remotes && l.remotes[other.name].enabled == other.enable {
        continue;
      }
      issued := issued + [Upsert(other.address, other.enable)];
      if (name, other.name) in failures {
        continue;
      }
      l.remotes := l.remotes[other.name := Remote(other.address, other.enable)];
    }
    assert peers[..|peers|] == peers;
  }

  /** `upsertRemotes`: whatever order the dialed peers are visited in, the views end the same. */
  method UpsertAll(peers: seq<Peer>, locals: Locals, failures: Failures)
    requires Separate(locals)
    modifies locals.Values
    ensures ViewsOf(locals) == UpsertRemotes(old(ViewsOf(locals)), peers, failures)
  {
    var todo := locals.Keys;
    while todo != {}
      invariant todo <= locals.Keys
      invariant forall name :: name in todo ==> locals[name].remotes == old(locals[name].remotes)
      invariant forall name :: name in locals && name !in todo ==>
                  locals[name].remotes == UpsertView(old(locals[name].remotes), name, peers, failures)
      decreases |todo|
    {
      var name :| name in todo;
      var _ := UpsertOn(name, locals[name], peers, failures);
      todo := todo - {name};
    }
  }

  /** One peer's entry in `computeReachable`'s map; false stands for an absent entry. */
  method Reachable(p: Peer, locals: Locals) returns (r: bool)
    ensures r <==> IsReachable(p, ViewsOf(locals))
  {
    if p.local {
      return p.name in locals;
    }
    var todo := locals.Keys;
    while todo != {}
      invariant todo <= locals.Keys
      invariant forall on :: on in locals && on !in todo ==> p.name !in locals[on].remotes
      decreases |todo|
    {
      var on :| on in todo;
      if p.name in locals[on].remotes {
        assert on in ViewsOf(locals) && p.name in ViewsOf(locals)[on];
        return true;
      }
      todo := todo - {on};
    }
    return false;
  }

  /** `peerConnected`. */
  method Connected(p: Peer, peers: seq<Peer>, locals: Locals) returns (r: bool)
    ensures r <==> IsConnected(p, peers, ViewsOf(locals))
  {
    if p.local {
      r := LocalConnected(p, peers, locals);
    } else {
      r := ExternalConnected(p, locals);
    }
  }

  method LocalConnected(p: Peer, peers: seq<Peer>, locals: Locals) returns (r: bool)
    requires p.local
    ensures r <==> IsConnected(p, peers, ViewsOf(locals))
  {
    if p.name !in locals {
      return false;
    }
    ghost var views := ViewsOf(locals);
    var view := locals[p.name].remotes;
    assert view == views[p.name];
    var i := 0;
    while i < |peers|
      invariant 0 <= i <= |peers|
      invariant forall k :: 0 <= k < i && peers[k].name != p.name && peers[k].enable && peers[k].address != "" ==>
                  Lists(view, peers[k].name)
    {
      var other := peers[i];
      if other.name != p.name && other.enable && other.address != "" {
        if other.name !in view || !view[other.name].enabled {
          assert other in peers && !Lists(views[p.name], other.name);
          return false;
        }
      }
      i := i + 1;
    }
    return true;
  }

  method ExternalConnected(p: Peer, locals: Locals) returns (r: bool)
    requires !p.local
    ensures r <==> IsConnected(p, [], ViewsOf(locals))
    ensures forall peers :: IsConnected(p, peers, ViewsOf(locals)) <==> IsConnected(p, [], ViewsOf(locals))
  {
    ghost var views := ViewsOf(locals);
    var others := 0;
    var todo := locals.Keys;
    while todo != {}
      invariant todo <= locals.Keys && 0 <= others
      invariant forall on :: on in locals && on !in todo && on != p.name ==> Lists(views[on], p.name)
      invariant others > 0 <==> exists on :: on in locals && on !in todo && on != p.name
      invariant views == ViewsOf(locals)
      decreases |todo|
    {
      var on :| on in todo;
      todo := todo - {on};
      if on != p.name {
        others := others + 1;
        var view := locals[on].remotes;
        assert on in views && view == views[on];
        if p.name !in view || !view[p.name].enabled {
          return false;
        }
      }
    }
    if others > 0 {
      ghost var on :| on in locals && on != p.name;
      assert on in views;
    }
    return others > 0;
  }

  // ----- the verdict -----

  /** The state of the loop after `i` peers: the verdict over that prefix, judged against the whole group. */
  ghost predicate LoopState(peers: seq<Peer>, views: Views, i: nat, allReady: bool, reason: Reason)
    requires i <= |peers|
  {
    && (allReady <==> forall k :: 0 <= k < i && peers[k].enable ==>
                        IsReachable(peers[k], views) && IsConnected(peers[k], peers, views))
    && (reason == PeerUnreachable <==> exists k :: 0 <= k < i && peers[k].enable && !IsReachable(peers[k], views))
    && (reason == PeersConnected <==> allReady)
  }

  /** The enabled peer the Ready message blames: the last unreachable one, else the first drifting one. */
  ghost predicate BlamedSoFar(peers: seq<Peer>, views: Views, i: nat, reason: Reason, culprit: Option<string>)
    requires i <= |peers|
  {
    match reason
    case PeersConnected => culprit == None
    case PeerUnreachable =>
      exists j :: 0 <= j < i && peers[j].enable && !IsReachable(peers[j], views) && culprit == Some(peers[j].name)
        && forall k :: j < k < i && peers[k].enable ==> IsReachable(peers[k], views)
    case ReplicationDrift =>
      exists j :: 0 <= j < i && peers[j].enable && !IsConnected(peers[j], peers, views) && culprit == Some(peers[j].name)
        && forall k :: 0 <= k < j && peers[k].enable ==> IsConnected(peers[k], peers, views)
  }

  ghost predicate Blamed(peers: seq<Peer>, views: Views, reason: Reason, culprit: Option<string>) {
    BlamedSoFar(peers, views, |peers|, reason, culprit)
  }

  /** `buildStatuses`: one status per peer in order, and the folded verdict, reason and culprit. */
  method BuildStatuses(peers: seq<Peer>, locals: Locals)
    returns (statuses: seq<PeerStatus>, allReady: bool, reason: Reason, culprit: Option<string>)
    ensures |statuses| == |peers|
    ensures forall i :: 0 <= i < |peers| ==>
              && statuses[i].name == peers[i].name
              && (statuses[i].reachable <==> IsReachable(peers[i], ViewsOf(locals)))
              && (statuses[i].connected <==> IsConnected(peers[i], peers, ViewsOf(locals)))
    ensures allReady <==> AllUp(peers, ViewsOf(locals))
    ensures reason == VerdictReason(peers, ViewsOf(locals))
    ensures Blamed(peers, ViewsOf(locals), reason, culprit)
  {
    ghost var views := ViewsOf(locals);
    hide IsReachable, IsConnected, ViewsOf;
    statuses, allReady, reason, culprit := [], true, PeersConnected, None;
    var i := 0;
    assert BlamedSoFar(peers, views, i, reason, culprit);
    hide BlamedSoFar;
    while i < |peers|
      invariant 0 <= i == |statuses| <= |peers|
      invariant forall k :: 0 <= k < i ==>
                  && statuses[k].name == peers[k].name
                  && (statuses[k].reachable <==> IsReachable(peers[k], views))
                  && (statuses[k].connected <==> IsConnected(peers[k], peers, views))
      invariant LoopState(peers, views, i, allReady, reason)
      invariant BlamedSoFar(peers, views, i, reason, culprit)
    {
      var p := peers[i];
      var connected := Connected(p, peers, locals);
      var reachable := Reachable(p, locals);
      ghost var before, blamed := reason, culprit;
      if !reachable {
        if p.enable {
          allReady := false;
          reason := PeerUnreachable;
          culprit := Some(p.name);
        }
      } else if p.enable && !connected {
        allReady := false;
        if reason == PeersConnected {
          reason := ReplicationDrift;
          culprit := Some(p.name);
        }
      }
      statuses := statuses + [PeerStatus(p.name, reachable, connected)];
      i := i + 1;
      BlameStep(peers, views, i - 1, before, blamed, reason, culprit);
    }
    VerdictOfLoop(peers, views, allReady, reason);
  }

  lemma BlameStep(peers: seq<Peer>, views: Views, i: nat, before: Reason, blamed: Option<string>, reason: Reason, culprit: Option<string>)
    requires i < |peers| && BlamedSoFar(peers, views, i, before, blamed)
    requires before == PeersConnected ==>
               forall k :: 0 <= k < i && peers[k].enable ==> IsReachable(peers[k], views) && IsConnected(peers[k], peers, views)
    requires var p := peers[i];
             if p.enable && !IsReachable(p, views) then reason == PeerUnreachable && culprit == Some(p.name)
             else if p.enable && !IsConnected(p, peers, views) && before == PeersConnected then
               reason == ReplicationDrift && culprit == Some(p.name)
             else reason == before && culprit == blamed
    ensures BlamedSoFar(peers, views, i + 1, reason, culprit)
  {
    hide IsReachable, IsConnected;
  }

  lemma VerdictOfLoop(peers: seq<Peer>, views: Views, allReady: bool, reason: Reason)
    requires LoopState(peers, views, |peers|, allReady, reason)
    ensures allReady <==> AllUp(peers, views)
    ensures reason == VerdictReason(peers, views)
  {
    hide IsReachable, IsConnected;
    if SomeUnreachable(peers, views) {
      var p :| p in peers && p.enable && !IsReachable(p, views);
      var k :| 0 <= k < |peers| && peers[k] == p;
    }
  }

  /**
   `reconcilePeers`: dial, upsert, judge.  With the names distinct, as admission guarantees,
   the verdict is that of the mesh the pass left behind.
   */
  method ReconcilePeers(peers: seq<Peer>, listings: map<string, View>, failures: Failures)
    returns (statuses: seq<PeerStatus>, allReady: bool, reason: Reason, culprit: Option<string>, ghost views: Views)
    requires Distinct(peers)
    ensures views == UpsertRemotes(DialLocals(peers, listings), peers, failures)
    ensures allReady <==> MeshComplete(peers, views)
    ensures reason == VerdictReason(peers, views)
    ensures |statuses| == |peers|
    ensures forall i :: 0 <= i < |peers| ==>
              && statuses[i].name == peers[i].name
              && (statuses[i].reachable <==> IsReachable(peers[i], views))
              && (statuses[i].connected <==> IsConnected(peers[i], peers, views))
    ensures Blamed(peers, views, reason, culprit)
  {
    var locals := Dial(peers, listings);
    UpsertAll(peers, locals, failures);
    views := ViewsOf(locals);
    statuses, allReady, reason, culprit := BuildStatuses(peers, locals);
    DialedViews(peers, listings, failures);
    VerdictIsExact(peers, views);
  }

  /** `reconcileDelete`'s loops: best-effort removal on every dialed peer. */
  method RemoveAll(peers: seq<Peer>, locals: Locals, failures: Failures)
    requires Separate(locals)
    modifies locals.Values
    ensures ViewsOf(locals) == map on | on in old(ViewsOf(locals)) :: RemoveOthers(old(ViewsOf(locals))[on], on, peers, failures)
  {
    var todo := locals.Keys;
    while todo != {}
      invariant todo <= locals.Keys
      invariant forall name :: name in todo ==> locals[name].remotes == old(locals[name].remotes)
      invariant forall name :: name in locals && name !in todo ==>
                  locals[name].remotes == RemoveOthers(old(locals[name].remotes), name, peers, failures)
      decreases |todo|
    {
      var name :| name in todo;
      RemoveOn(name, locals[name], peers, failures);
      todo := todo - {name};
    }
  }

  method RemoveOn(name: string, l: LocalPeer, peers: seq<Peer>, failures: Failures)
    modifies l
    ensures l.remotes == RemoveOthers(old(l.remotes), name, peers, failures)
  {
    var i := 0;
    while i < |peers|
      invariant 0 <= i <= |peers|
      invariant l.remotes == RemoveOthers(old(l.remotes), name, peers[..i], failures)
    {
      assert peers[..i + 1][..i] == peers[..i];
      var other := peers[i].name;
      if other != name && (name, other) !in failures {
        l.remotes := l.remotes - {other};
      }
      i := i + 1;
    }
    assert peers[..|peers|] == peers;
  }
}
