/**
 Replication meshes (internal/controller/temporalclusterconnection_controller.go and
 its webhook): which peers list which, and when the whole group counts as connected.
 A view is what one dialed peer lists: remote clusters by name.
 */
module Mesh {
  import opened Wrappers

  datatype PeerSpec = PeerSpec(name: string, clusterRef: Option<string>, address: string, tlsSecret: bool, enableConnection: Option<bool>)

  /** A resolved peer: `local` ones can be dialed and managed. */
  datatype Peer = Peer(name: string, address: string, local: bool, ready: bool, enable: bool)

  datatype Remote = Remote(address: string, enabled: bool)
  type View = map<string, Remote>
  type Views = map<string, View>

  ghost predicate Distinct(peers: seq<Peer>) {
    forall i, j :: 0 <= i < j < |peers| ==> peers[i].name != peers[j].name
  }

  // ----- admission -----

  datatype PeerError = NameRequired(i: nat) | Duplicate(i: nat) | BothTargets(i: nat) | NoTarget(i: nat) | StrayTLS(i: nat)

  predicate HasRef(p: PeerSpec) { p.clusterRef.Some? && p.clusterRef.value != "" }
  predicate HasAddress(p: PeerSpec) { p.address != "" }

  /** A name, exactly one of a cluster reference and an address, and a TLS secret only beside an address. */
  ghost predicate WellFormed(p: PeerSpec) {
    && p.name != ""
    && (p.clusterRef !in {None, Some("")} <==> p.address == "")
    && (p.tlsSecret ==> p.address != "")
  }

  ghost predicate Admissible(peers: seq<PeerSpec>) {
    && (forall i :: 0 <= i < |peers| ==> WellFormed(peers[i]))
    && (forall i, j :: 0 <= i < j < |peers| ==> peers[i].name != peers[j].name)
  }

  /** What each error says of the peer it points at. */
  ghost predicate Deserved(peers: seq<PeerSpec>, e: PeerError) {
    && e.i < |peers|
    && var p := peers[e.i];
       match e
       case NameRequired(_) => p.name == ""
       case Duplicate(i) => exists k :: 0 <= k < i && peers[k].name == p.name
       case BothTargets(_) => p.clusterRef !in {None, Some("")} && p.address != ""
       case NoTarget(_) => p.clusterRef in {None, Some("")} && p.address == ""
       case StrayTLS(_) => p.tlsSecret && p.address == ""
  }

  /**
   `validatePeers`: exactly the deserved errors, so none exactly when every peer is well formed
   and no name repeats.
   */
  method ValidatePeers(peers: seq<PeerSpec>) returns (errs: seq<PeerError>)
    ensures forall e :: e in errs <==> Deserved(peers, e)
    ensures errs == [] <==> Admissible(peers)
  {
    errs := [];
    var seen: set<string> := {};
    var i := 0;
    while i < |peers|
      invariant 0 <= i <= |peers|
      invariant seen == set k | 0 <= k < i :: peers[k].name
      invariant forall e :: e in errs <==> e.i < i && Deserved(peers, e)
      invariant errs == [] <==> Admissible(peers[..i])
    {
      var found := PeerErrors(peers, i, seen);
      errs := errs + found;
      seen := seen + {peers[i].name};
      AdmissibleExtends(peers, i);
      i := i + 1;
    }
    assert peers[..|peers|] == peers;
  }

  /** The body of the loop, for one peer. */
  method PeerErrors(peers: seq<PeerSpec>, i: nat, seen: set<string>) returns (found: seq<PeerError>)
    requires i < |peers| && seen == set k | 0 <= k < i :: peers[k].name
    ensures forall e :: e in found <==> e.i == i && Deserved(peers, e)
    ensures found == [] <==> WellFormed(peers[i]) && forall k :: 0 <= k < i ==> peers[k].name != peers[i].name
  {
    var p := peers[i];
    found := [];
    if p.name == "" {
      found := found + [NameRequired(i)];
    }
    if p.name in seen {
      found := found + [Duplicate(i)];
    }
    if HasRef(p) && HasAddress(p) {
      found := found + [BothTargets(i)];
    } else if !HasRef(p) && !HasAddress(p) {
      found := found + [NoTarget(i)];
    }
    if p.tlsSecret && !HasAddress(p) {
      found := found + [StrayTLS(i)];
    }
    assert HasRef(p) <==> p.clusterRef !in {None, Some("")};
    forall e ensures e in found <==> e.i == i && Deserved(peers, e) {
      match e
      case NameRequired(_) =>
      case Duplicate(_) =>
      case BothTargets(_) =>
      case NoTarget(_) =>
      case StrayTLS(_) =>
    }
    assert found == [] ==> WellFormed(p);
    if found != [] { assert found[0] in found; }
  }

  lemma AdmissibleExtends(peers: seq<PeerSpec>, i: nat)
    requires i < |peers|
    ensures Admissible(peers[..i + 1])
       <==> Admissible(peers[..i]) && WellFormed(peers[i]) && (forall k :: 0 <= k < i ==> peers[k].name != peers[i].name)
  {
    hide WellFormed;
    var shorter, longer := peers[..i], peers[..i + 1];
    assert longer[i] == peers[i];
    assert forall k :: 0 <= k < i ==> longer[k] == shorter[k] == peers[k];
    if Admissible(longer) {
      forall k | 0 <= k < i ensures peers[k].name != peers[i].name { assert longer[k].name != longer[i].name; }
    }
  }

  /** What resolving a local peer's target found: an address and whether it is Ready. */
  datatype Target = Target(address: string, ready: bool)

  /** `resolvePeers`: an unresolvable local peer stays, without an address and not ready. */
  function Resolve(peers: seq<PeerSpec>, targets: map<string, Target>): (r: seq<Peer>)
    ensures |r| == |peers| && forall i :: 0 <= i < |peers| ==> r[i].name == peers[i].name
  {
    seq(|peers|, i requires 0 <= i < |peers| => ResolveOne(peers[i], targets))
  }

  function ResolveOne(p: PeerSpec, targets: map<string, Target>): (r: Peer)
    ensures r.name == p.name
  {
    var enable := p.enableConnection.GetOr(true);
    if p.clusterRef.None? then Peer(p.name, p.address, false, true, enable)
    else if p.clusterRef.value !in targets then Peer(p.name, "", true, false, enable)
    else
      var t := targets[p.clusterRef.value];
      Peer(p.name, t.address, true, t.ready, enable)
  }

  /** The peer refers to a cluster that was found Ready at an address. */
  predicate RefersToReady(p: PeerSpec, targets: map<string, Target>) {
    && p.clusterRef.Some? && p.clusterRef.value in targets
    && targets[p.clusterRef.value].ready && targets[p.clusterRef.value].address != ""
  }

  /**
   What becomes of a peer of the spec: a reference alone makes it local, its connection is
   wanted unless the spec says no, its address is the target's or the one given, and it can be
   dialed exactly when it refers to a cluster that was found Ready at an address.
   */
  lemma ResolvedExactly(peers: seq<PeerSpec>, targets: map<string, Target>, i: nat)
    requires i < |peers|
    ensures var p, r := peers[i], Resolve(peers, targets)[i];
            && r.name == p.name
            && (r.local <==> p.clusterRef.Some?)
            && (r.enable <==> p.enableConnection != Some(false))
            && (p.clusterRef.None? ==> r.address == p.address && r.ready)
            && (p.clusterRef.Some? && p.clusterRef.value in targets ==>
                  r.address == targets[p.clusterRef.value].address && r.ready == targets[p.clusterRef.value].ready)
            && (p.clusterRef.Some? && p.clusterRef.value !in targets ==> r.address == "" && !r.ready)
            && (Dialable(r) <==> RefersToReady(p, targets))
  {
  }

  /** Admission is what makes the names the controller sees distinct. */
  lemma AdmittedPeersAreDistinct(peers: seq<PeerSpec>, targets: map<string, Target>)
    requires Admissible(peers)
    ensures Distinct(Resolve(peers, targets))
  {
  }

  // ----- dialing -----

  predicate Dialable(p: Peer) {
    p.local && p.ready && p.address != ""
  }

  /** `dialLocals`: the views of the local, ready, addressable peers that answered with a listing. */
  function DialLocals(peers: seq<Peer>, listings: map<string, View>): Views {
    if peers == [] then map[]
    else
      var last := |peers| - 1;
      var p := peers[last];
      var views := DialLocals(peers[..last], listings);
      if Dialable(p) && p.name in listings then views[p.name := listings[p.name]] else views
  }

  lemma {:induction false} DialedExactly(peers: seq<Peer>, listings: map<string, View>, name: string)
    ensures name in DialLocals(peers, listings)
       <==> name in listings && exists i :: 0 <= i < |peers| && peers[i].name == name && Dialable(peers[i])
    ensures name in DialLocals(peers, listings) ==> DialLocals(peers, listings)[name] == listings[name]
    decreases |peers|
  {
    if peers != [] {
      var last := |peers| - 1;
      DialedExactly(peers[..last], listings, name);
      if exists i :: 0 <= i < |peers| && peers[i].name == name && Dialable(peers[i]) {
        var i :| 0 <= i < |peers| && peers[i].name == name && Dialable(peers[i]);
        assert i == last || peers[..last][i] == peers[i];
      }
    }
  }

  /** So, from the spec: a view is loaded for exactly the names whose peer refers to a Ready cluster that answered the listing. */
  lemma DialedFromSpec(peers: seq<PeerSpec>, targets: map<string, Target>, listings: map<string, View>, name: string)
    ensures var views := DialLocals(Resolve(peers, targets), listings);
            && (name in views <==>
                  name in listings && exists i :: 0 <= i < |peers| && peers[i].name == name && RefersToReady(peers[i], targets))
            && (name in views ==> views[name] == listings[name])
  {
    var resolved := Resolve(peers, targets);
    DialedExactly(resolved, listings, name);
    forall i | 0 <= i < |peers| ensures Dialable(resolved[i]) <==> RefersToReady(peers[i], targets) {
      ResolvedExactly(peers, targets, i);
    }
    hide Dialable, RefersToReady;
    if i :| 0 <= i < |resolved| && resolved[i].name == name && Dialable(resolved[i]) {
      assert peers[i].name == name && RefersToReady(peers[i], targets);
    }
    if i :| 0 <= i < |peers| && peers[i].name == name && RefersToReady(peers[i], targets) {
      assert resolved[i].name == name && Dialable(resolved[i]);
    }
  }

  // ----- upserting -----

  /** RPCs that fail: on the first peer, for the second. */
  type Failures = set<(string, string)>

  /** `other` is missing from the view of `on`, or listed with the wrong flag. */
  predicate Needs(view: View, on: string, other: Peer) {
    && other.name != on && other.address != ""
    && !(other.name in view && view[other.name].enabled == other.enable)
  }

  function UpsertOne(view: View, on: string, other: Peer, failures: Failures): View {
    if Needs(view, on, other) && (on, other.name) !in failures then
      view[other.name := Remote(other.address, other.enable)]
    else view
  }

  /** The inner loop of `upsertRemotes`. */
  function UpsertView(view: View, on: string, peers: seq<Peer>, failures: Failures): View {
    if peers == [] then view
    else
      var last := |peers| - 1;
      UpsertOne(UpsertView(view, on, peers[..last], failures), on, peers[last], failures)
  }

  function UpsertRemotes(views: Views, peers: seq<Peer>, failures: Failures): Views {
    map on | on in views :: UpsertView(views[on], on, peers, failures)
  }

  /** A peer another one has to know: not itself, and with an address. */
  predicate Wanted(on: string, p: Peer) {
    p.name != on && p.address != ""
  }

  function Entry(view: View, name: string): Option<Remote> {
    if name in view then Some(view[name]) else None
  }

  /** The view lists the peer with the flag the connection asks for, at whatever address. */
  predicate HasFlag(view: View, p: Peer) {
    p.name in view && view[p.name].enabled == p.enable
  }

  /** What a pass leaves under a peer's name: its own address and flag where an upsert was due and got through, else what was there. */
  function Left(view: View, on: string, p: Peer, failures: Failures): Option<Remote> {
    if Wanted(on, p) && !HasFlag(view, p) && (on, p.name) !in failures then Some(Remote(p.address, p.enable))
    else Entry(view, p.name)
  }

  /** With distinct names, each peer's entry depends on the view before the pass and on that peer alone. */
  lemma {:induction false} UpsertIsPointwise(view: View, on: string, peers: seq<Peer>, failures: Failures, name: string)
    requires Distinct(peers)
    ensures var after := UpsertView(view, on, peers, failures);
            && ((forall i :: 0 <= i < |peers| ==> peers[i].name != name) ==> Entry(after, name) == Entry(view, name))
            && (forall i :: 0 <= i < |peers| && peers[i].name == name ==> Entry(after, name) == Left(view, on, peers[i], failures))
    decreases |peers|
  {
    if peers != [] {
      var last := |peers| - 1;
      var before := UpsertView(view, on, peers[..last], failures);
      assert Distinct(peers[..last]);
      UpsertIsPointwise(view, on, peers[..last], failures, name);
      UpsertStep(before, on, peers[last], failures, name);
      hide Left, UpsertOne;
      if peers[last].name == name {
        assert forall i :: 0 <= i < last ==> peers[..last][i].name != name;
        LeftDepends(before, view, on, peers[last], failures);
      } else {
        forall i | 0 <= i < |peers| && peers[i].name == name
          ensures Entry(UpsertView(view, on, peers, failures), name) == Left(view, on, peers[i], failures)
        {
          assert peers[..last][i] == peers[i];
        }
      }
    }
  }

  lemma PassLeaves(view: View, on: string, peers: seq<Peer>, failures: Failures)
    requires Distinct(peers)
    ensures forall p :: p in peers ==> Entry(UpsertView(view, on, peers, failures), p.name) == Left(view, on, p, failures)
  {
    forall p | p in peers ensures Entry(UpsertView(view, on, peers, failures), p.name) == Left(view, on, p, failures) {
      var i :| 0 <= i < |peers| && peers[i] == p;
      UpsertIsPointwise(view, on, peers, failures, p.name);
    }
  }

  lemma UpsertStep(view: View, on: string, p: Peer, failures: Failures, name: string)
    ensures Entry(UpsertOne(view, on, p, failures), name) == if p.name == name then Left(view, on, p, failures) else Entry(view, name)
  {
  }

  lemma LeftDepends(a: View, b: View, on: string, p: Peer, failures: Failures)
    requires Entry(a, p.name) == Entry(b, p.name)
    ensures Left(a, on, p, failures) == Left(b, on, p, failures)
  {
  }

  ghost predicate SamePeers(a: seq<Peer>, b: seq<Peer>) {
    forall p :: p in a <==> p in b
  }

  /** The views a pass leaves do not depend on the order in which the spec lists its peers. */
  lemma UpsertIgnoresOrder(view: View, on: string, a: seq<Peer>, b: seq<Peer>, failures: Failures)
    requires Distinct(a) && Distinct(b) && SamePeers(a, b)
    ensures UpsertView(view, on, a, failures) == UpsertView(view, on, b, failures)
  {
    hide Left;
    var x, y := UpsertView(view, on, a, failures), UpsertView(view, on, b, failures);
    forall name ensures Entry(x, name) == Entry(y, name) {
      UpsertIsPointwise(view, on, a, failures, name);
      UpsertIsPointwise(view, on, b, failures, name);
      if i :| 0 <= i < |a| && a[i].name == name {
        assert a[i] in b;
        var j :| 0 <= j < |b| && b[j] == a[i];
      } else {
        forall j | 0 <= j < |b| ensures b[j].name != name {
          assert b[j] in a;
        }
      }
    }
    SameEntries(x, y);
  }

  lemma SameEntries(x: View, y: View)
    requires forall name :: Entry(x, name) == Entry(y, name)
    ensures x == y
  {
    forall name ensures (name in x <==> name in y) && (name in x ==> x[name] == y[name]) {
      assert Entry(x, name) == Entry(y, name);
    }
  }

  /**
   After a pass without RPC failures every dialed view lists every other addressable peer with
   the desired flag: at the peer's own address if it was missing or had the other flag, and
   otherwise wherever it was listed before.
   */
  lemma UpsertReachesDesired(view: View, on: string, peers: seq<Peer>, other: Peer)
    requires Distinct(peers) && other in peers && other.name != on && other.address != ""
    ensures var after := UpsertView(view, on, peers, {});
            && other.name in after && after[other.name].enabled == other.enable
            && after[other.name].address ==
                 if other.name in view && view[other.name].enabled == other.enable then view[other.name].address
                 else other.address
  {
    var i :| 0 <= i < |peers| && peers[i] == other;
    UpsertIsPointwise(view, on, peers, {}, other.name);
  }

  /** The request a remote cluster is registered with; the server finds out its name by itself. */
  datatype Upsert = Upsert(address: string, enable: bool)

  /** The upserts a pass issues on `on`, in order. */
  function Issued(view: View, on: string, peers: seq<Peer>, failures: Failures): seq<Upsert> {
    if peers == [] then []
    else
      var last := |peers| - 1;
      Issued(view, on, peers[..last], failures)
      + if Needs(UpsertView(view, on, peers[..last], failures), on, peers[last])
        then [Upsert(peers[last].address, peers[last].enable)] else []
  }

  /** An upsert is due for the peer: it is missing, or listed with the other flag. */
  predicate IsDue(view: View, on: string, p: Peer) {
    Wanted(on, p) && !HasFlag(view, p)
  }

  /** Whether an upsert is issued depends on the view before the pass alone. */
  lemma LastIsDue(view: View, on: string, peers: seq<Peer>, failures: Failures)
    requires Distinct(peers) && peers != []
    ensures var last := |peers| - 1;
            Needs(UpsertView(view, on, peers[..last], failures), on, peers[last]) <==> IsDue(view, on, peers[last])
  {
    var last := |peers| - 1;
    var p, rest := peers[last], peers[..last];
    assert Distinct(rest);
    assert forall i :: 0 <= i < last ==> rest[i].name != p.name;
    UpsertIsPointwise(view, on, rest, failures, p.name);
    hide UpsertView;
  }

  lemma IssuedGrows(view: View, on: string, peers: seq<Peer>, failures: Failures)
    requires Distinct(peers) && peers != []
    ensures var p, rest := peers[|peers| - 1], peers[..|peers| - 1];
            Issued(view, on, peers, failures)
            == if IsDue(view, on, p) then Issued(view, on, rest, failures) + [Upsert(p.address, p.enable)]
               else Issued(view, on, rest, failures)
  {
    hide UpsertView, Needs, IsDue;
    LastIsDue(view, on, peers, failures);
  }

  lemma LastIsNew(peers: seq<Peer>)
    requires Distinct(peers) && peers != []
    ensures Distinct(peers[..|peers| - 1]) && peers[|peers| - 1] !in peers[..|peers| - 1]
    ensures forall q :: q in peers <==> q == peers[|peers| - 1] || q in peers[..|peers| - 1]
  {
  }

  /**
   A pass sends exactly one request for each other addressable peer that was missing or had the
   wrong flag before it, with that peer's address and flag, whichever requests fail.
   */
  lemma {:induction false} IssuedExactly(view: View, on: string, peers: seq<Peer>, failures: Failures)
    requires Distinct(peers)
    ensures |Issued(view, on, peers, failures)| == |set p | p in peers && IsDue(view, on, p)|
    ensures forall u :: u in Issued(view, on, peers, failures) <==>
              exists p :: p in peers && IsDue(view, on, p) && u == Upsert(p.address, p.enable)
    decreases |peers|
  {
    hide UpsertView, Needs, IsDue, Issued, Distinct;
    if peers == [] {
      NothingIssued(view, on, failures);
    } else {
      var p, rest := peers[|peers| - 1], peers[..|peers| - 1];
      LastIsNew(peers);
      IssuedGrows(view, on, peers, failures);
      IssuedExactly(view, on, rest, failures);
      var due := set q | q in rest && IsDue(view, on, q);
      assert (set q | q in peers && IsDue(view, on, q)) == if IsDue(view, on, p) then due + {p} else due;
    }
  }

  lemma NothingIssued(view: View, on: string, failures: Failures)
    ensures Issued(view, on, [], failures) == []
  {
  }

  /** A pass over views that already match issues nothing and changes nothing. */
  lemma {:induction false} MatchingViewIsLeftAlone(view: View, on: string, peers: seq<Peer>, failures: Failures)
    requires forall p :: p in peers ==> !Needs(view, on, p)
    ensures Issued(view, on, peers, failures) == [] && UpsertView(view, on, peers, failures) == view
    decreases |peers|
  {
    if peers != [] {
      MatchingViewIsLeftAlone(view, on, peers[..|peers| - 1], failures);
    }
  }

  /** A pass that issues nothing found nothing to do and changed nothing. */
  lemma {:induction false} QuietPassFoundNothing(view: View, on: string, peers: seq<Peer>, failures: Failures)
    requires Issued(view, on, peers, failures) == []
    ensures UpsertView(view, on, peers, failures) == view
    ensures forall p :: p in peers ==> !Needs(view, on, p)
    decreases |peers|
  {
    if peers != [] {
      var last := |peers| - 1;
      QuietPassFoundNothing(view, on, peers[..last], failures);
      assert peers == peers[..last] + [peers[last]];
    }
  }

  /** After a pass without failures the entry of a name has the flag of the last wanted peer of that name. */
  lemma {:induction false} LastPeerWins(view: View, on: string, peers: seq<Peer>, i: nat)
    requires i < |peers| && Wanted(on, peers[i])
    requires forall k :: i < k < |peers| && peers[k].name == peers[i].name ==> !Wanted(on, peers[k])
    ensures var after := UpsertView(view, on, peers, {});
            peers[i].name in after && after[peers[i].name].enabled == peers[i].enable
    decreases |peers|
  {
    var last := |peers| - 1;
    if i < last {
      assert peers[..last][i] == peers[i];
      LastPeerWins(view, on, peers[..last], i);
    }
  }

  /** The last wanted peer of a name. */
  lemma {:induction false} LastOfName(on: string, peers: seq<Peer>, i: nat) returns (last: nat)
    requires i < |peers| && Wanted(on, peers[i])
    ensures i <= last < |peers| && Wanted(on, peers[last]) && peers[last].name == peers[i].name
    ensures forall k :: last < k < |peers| && peers[k].name == peers[i].name ==> !Wanted(on, peers[k])
    decreases |peers| - i
  {
    if k :| i < k < |peers| && peers[k].name == peers[i].name && Wanted(on, peers[k]) {
      last := LastOfName(on, peers, k);
    } else {
      last := i;
    }
  }

  /** Peers of one name, if the pass wants them, agree on the flag. */
  ghost predicate FlagsAgree(on: string, peers: seq<Peer>) {
    forall p, q :: p in peers && q in peers && Wanted(on, p) && Wanted(on, q) && p.name == q.name ==> p.enable == q.enable
  }

  /**
   Upserting is a fixpoint exactly when no two wanted peers share a name with different flags:
   after a pass without failures, over any view and any list of peers, a second pass, which
   finds the servers listing what the first left, issues no RPC if and only if the flags agree.
   */
  lemma SecondPassIsQuietExactly(view: View, on: string, peers: seq<Peer>, failures: Failures)
    ensures var after := UpsertView(view, on, peers, {});
            Issued(after, on, peers, failures) == [] <==> FlagsAgree(on, peers)
  {
    var after := UpsertView(view, on, peers, {});
    if FlagsAgree(on, peers) {
      forall p | p in peers ensures !Needs(after, on, p) {
        if Wanted(on, p) {
          var i :| 0 <= i < |peers| && peers[i] == p;
          var last := LastOfName(on, peers, i);
          LastPeerWins(view, on, peers, last);
        }
      }
      MatchingViewIsLeftAlone(after, on, peers, failures);
    } else if Issued(after, on, peers, failures) == [] {
      QuietPassFoundNothing(after, on, peers, failures);
      var p, q :| p in peers && q in peers && Wanted(on, p) && Wanted(on, q) && p.name == q.name && p.enable != q.enable;
      assert false;
    }
  }

  /** So with distinct names, as admission guarantees, the second pass is quiet and changes no view, whatever fails then. */
  lemma SecondPassIsQuiet(view: View, on: string, peers: seq<Peer>, failures: Failures)
    requires Distinct(peers)
    ensures var after := UpsertView(view, on, peers, {});
            Issued(after, on, peers, failures) == [] && UpsertView(after, on, peers, failures) == after
  {
    var after := UpsertView(view, on, peers, {});
    assert FlagsAgree(on, peers);
    SecondPassIsQuietExactly(view, on, peers, failures);
    QuietPassFoundNothing(after, on, peers, failures);
  }

  function AfterPasses(view: View, on: string, peers: seq<Peer>, n: nat): View {
    if n == 0 then view else UpsertView(AfterPasses(view, on, peers, n - 1), on, peers, {})
  }

  /** Two wanted peers of one name with different flags never settle: however many passes went before, the next one issues RPCs. */
  lemma DuplicateNamesNeverSettle(view: View, on: string, peers: seq<Peer>, n: nat, p: Peer, q: Peer, failures: Failures)
    requires p in peers && q in peers && Wanted(on, p) && Wanted(on, q) && p.name == q.name && p.enable != q.enable && n > 0
    ensures Issued(AfterPasses(view, on, peers, n), on, peers, failures) != []
  {
    SecondPassIsQuietExactly(AfterPasses(view, on, peers, n - 1), on, peers, failures);
  }

  /**
   Address drift is not repaired: however many failure-free passes were made, a remote that was
   listed with the desired flag keeps the address it had, so the peer is listed at its own
   address exactly when it was missing, or had the other flag, or had that address already.
   */
  lemma {:induction false} AddressIsRightExactly(view: View, on: string, peers: seq<Peer>, n: nat, other: Peer)
    requires Distinct(peers) && other in peers && other.name != on && other.address != "" && n > 0
    ensures var after := AfterPasses(view, on, peers, n);
            && other.name in after && after[other.name].enabled == other.enable
            && (after[other.name].address == other.address <==>
                  || other.name !in view || view[other.name].enabled != other.enable
                  || view[other.name].address == other.address)
            && (other.name in view && view[other.name].enabled == other.enable ==> after[other.name] == view[other.name])
    decreases n
  {
    UpsertReachesDesired(AfterPasses(view, on, peers, n - 1), on, peers, other);
    if n > 1 { AddressIsRightExactly(view, on, peers, n - 1, other); }
  }

  // ----- the verdict -----

  /** `computeReachable`: a local peer was dialed; an external one is listed by some dialed peer. */
  ghost predicate IsReachable(p: Peer, views: Views) {
    if p.local then p.name in views else exists on :: on in views && p.name in views[on]
  }

  predicate Lists(view: View, name: string) {
    name in view && view[name].enabled
  }

  /** `peerConnected`. */
  ghost predicate IsConnected(p: Peer, peers: seq<Peer>, views: Views) {
    if p.local then
      && p.name in views
      && forall other :: other in peers && other.name != p.name && other.enable && other.address != "" ==>
           Lists(views[p.name], other.name)
    else
      && (exists on :: on in views && on != p.name)
      && (forall on :: on in views && on != p.name ==> Lists(views[on], p.name))
  }

  datatype Reason = PeersConnected | PeerUnreachable | ReplicationDrift
  datatype PeerStatus = PeerStatus(name: string, reachable: bool, connected: bool)

  /** The whole group is up: every enabled peer is reachable and connected. */
  ghost predicate AllUp(peers: seq<Peer>, views: Views) {
    forall p :: p in peers && p.enable ==> IsReachable(p, views) && IsConnected(p, peers, views)
  }

  ghost predicate SomeUnreachable(peers: seq<Peer>, views: Views) {
    exists p :: p in peers && p.enable && !IsReachable(p, views)
  }

  ghost function VerdictReason(peers: seq<Peer>, views: Views): Reason {
    if AllUp(peers, views) then PeersConnected
    else if SomeUnreachable(peers, views) then PeerUnreachable
    else ReplicationDrift
  }

  /** The same, described from the outside: who must have been dialed and who must list whom. */
  ghost predicate MeshComplete(peers: seq<Peer>, views: Views) {
    && (forall p :: p in peers && p.enable && p.local ==> p.name in views)
    && (forall p, q :: p in peers && q in peers && p.enable && q.enable && p.local && p.name != q.name && p.name in views ==>
          q.name in views[p.name] && views[p.name][q.name].enabled)
    && (forall q :: q in peers && q.enable && !q.local ==>
          && (exists on :: on in views && on != q.name)
          && (forall on :: on in views && on != q.name ==> q.name in views[on] && views[on][q.name].enabled))
  }

  /** Views come from dialing: only addressable local peers have one. */
  ghost predicate Dialed(peers: seq<Peer>, views: Views) {
    forall p :: p in peers && p.name in views ==> p.local && p.address != ""
  }

  lemma DialedViews(peers: seq<Peer>, listings: map<string, View>, failures: Failures)
    requires Distinct(peers)
    ensures Dialed(peers, UpsertRemotes(DialLocals(peers, listings), peers, failures))
  {
    forall p | p in peers && p.name in UpsertRemotes(DialLocals(peers, listings), peers, failures)
      ensures p.local && p.address != ""
    {
      DialedExactly(peers, listings, p.name);
      var i :| 0 <= i < |peers| && peers[i].name == p.name && Dialable(peers[i]);
      var j :| 0 <= j < |peers| && peers[j] == p;
      assert i == j by { if i < j {} else if j < i {} }
    }
  }

  /**
   The readiness verdict is exact: it holds if and only if every enabled local peer was
   dialed, lists every other enabled peer as an enabled remote, and every enabled external
   peer is an enabled remote on all dialed peers, of which there is one.  The reason is
   PeerUnreachable exactly when an enabled local peer was not dialed or an enabled external one
   is listed by nobody.
   */
  lemma VerdictIsExact(peers: seq<Peer>, views: Views)
    requires Distinct(peers) && Dialed(peers, views)
    ensures AllUp(peers, views) <==> MeshComplete(peers, views)
    ensures VerdictReason(peers, views) == PeersConnected <==> MeshComplete(peers, views)
    ensures VerdictReason(peers, views) == PeerUnreachable <==>
              exists p :: p in peers && p.enable
                && if p.local then p.name !in views else forall on :: on in views ==> p.name !in views[on]
  {
    if AllUp(peers, views) {
      forall p, q | p in peers && q in peers && p.enable && q.enable && p.local && p.name != q.name && p.name in views
        ensures q.name in views[p.name] && views[p.name][q.name].enabled
      {
        assert IsReachable(q, views) && IsConnected(q, peers, views) && IsConnected(p, peers, views);
      }
      assert MeshComplete(peers, views);
    }
    if MeshComplete(peers, views) {
      forall p | p in peers && p.enable ensures IsReachable(p, views) && IsConnected(p, peers, views) {
        if !p.local {
          var on :| on in views && on != p.name;
          assert Lists(views[on], p.name);
        }
      }
    }
  }

  /** Every view lists every other addressable peer with the flag the connection asks for. */
  ghost predicate FullyListed(peers: seq<Peer>, views: Views) {
    forall on, p :: on in views && p in peers && p.name != on && p.address != "" ==> HasFlag(views[on], p)
  }

  lemma HealthyPassLists(peers: seq<Peer>, listings: map<string, View>)
    requires Distinct(peers)
    ensures FullyListed(peers, UpsertRemotes(DialLocals(peers, listings), peers, {}))
  {
    var dialed: Views := DialLocals(peers, listings);
    var views: Views := UpsertRemotes(dialed, peers, {});
    forall on: string, p: Peer | on in views && p in peers && p.name != on && p.address != "" ensures HasFlag(views[on], p) {
      UpsertReachesDesired(dialed[on], on, peers, p);
    }
  }

  lemma ListedAreConnected(peers: seq<Peer>, views: Views, p: Peer)
    requires FullyListed(peers, views) && Dialed(peers, views) && p in peers
    ensures p.local ==> (IsConnected(p, peers, views) <==> p.name in views)
    ensures !p.local && p.address != "" ==> (IsConnected(p, peers, views) <==> p.enable && views != map[])
    ensures !p.local && p.address != "" ==> (IsReachable(p, views) <==> views != map[])
  {
    if !p.local && p.address != "" && views != map[] {
      var on :| on in views;
      assert on != p.name && HasFlag(views[on], p);
    }
  }

  /**
   What a pass without RPC failures achieves.  Every dialed peer becomes connected.  An
   addressable external peer becomes connected, if it is enabled, as soon as anyone is dialed,
   and not if it is disabled.
   */
  lemma HealthyPassConnects(peers: seq<Peer>, listings: map<string, View>, p: Peer)
    requires Distinct(peers) && p in peers
    ensures var views := UpsertRemotes(DialLocals(peers, listings), peers, {});
            && (p.local ==> (IsConnected(p, peers, views) <==> p.name in views))
            && (!p.local && p.address != "" ==> (IsConnected(p, peers, views) <==> p.enable && views != map[]))
            && (!p.local && p.address != "" ==> (IsReachable(p, views) <==> views != map[]))
  {
    hide UpsertRemotes, DialLocals, IsConnected, IsReachable, FullyListed, Dialed;
    DialedViews(peers, listings, {});
    HealthyPassLists(peers, listings);
    ListedAreConnected(peers, UpsertRemotes(DialLocals(peers, listings), peers, {}), p);
  }

  /**
   So after a pass without RPC failures the group is ready exactly when every enabled local
   peer was dialed and, if an external peer is enabled, there is somebody to list it.
   */
  lemma HealthyMeshIsReadyExactly(peers: seq<Peer>, listings: map<string, View>)
    requires Distinct(peers) && forall p :: p in peers && !p.local ==> p.address != ""
    ensures var views := UpsertRemotes(DialLocals(peers, listings), peers, {});
            AllUp(peers, views) <==>
              && (forall p :: p in peers && p.local && p.enable ==> p.name in views)
              && ((exists p :: p in peers && !p.local && p.enable) ==> views != map[])
  {
    var views := UpsertRemotes(DialLocals(peers, listings), peers, {});
    forall p | p in peers
      ensures p.local ==> (IsConnected(p, peers, views) <==> p.name in views)
      ensures !p.local ==> (IsConnected(p, peers, views) <==> p.enable && views != map[])
      ensures !p.local ==> (IsReachable(p, views) <==> views != map[])
      ensures p.local ==> (IsReachable(p, views) <==> p.name in views)
    {
      HealthyPassConnects(peers, listings, p);
    }
    hide IsConnected, IsReachable, UpsertRemotes, DialLocals, Distinct;
  }

  /** The verdict and its reason do not depend on the order of the peers. */
  lemma VerdictIgnoresOrder(a: seq<Peer>, b: seq<Peer>, views: Views)
    requires SamePeers(a, b)
    ensures AllUp(a, views) <==> AllUp(b, views)
    ensures VerdictReason(a, views) == VerdictReason(b, views)
  {
    forall p ensures IsConnected(p, a, views) <==> IsConnected(p, b, views) {
    }
  }

  // ----- deletion -----

  /** The inner loop of `reconcileDelete`: best-effort removal of every other peer. */
  function RemoveOthers(view: View, on: string, peers: seq<Peer>, failures: Failures): View {
    if peers == [] then view
    else
      var last := |peers| - 1;
      var rest := RemoveOthers(view, on, peers[..last], failures);
      if peers[last].name == on || (on, peers[last].name) in failures then rest else rest - {peers[last].name}
  }

  lemma {:induction false} RemoveIsPointwise(view: View, on: string, peers: seq<Peer>, failures: Failures, name: string)
    ensures var after := RemoveOthers(view, on, peers, failures);
            && (name in after <==> name in view && !(name != on && (on, name) !in failures && exists p :: p in peers && p.name == name))
            && (name in after ==> after[name] == view[name])
    decreases |peers|
  {
    if peers != [] {
      var last := |peers| - 1;
      RemoveIsPointwise(view, on, peers[..last], failures, name);
      assert forall p :: p in peers <==> p == peers[last] || p in peers[..last];
    }
  }

  /**
   Deletion undoes registration: if no removal fails, a dialed peer's view is what it was
   before the operator's pass, less every other peer of the connection; remotes registered by
   others are untouched.
   */
  lemma DeletionUndoesUpserts(view: View, on: string, peers: seq<Peer>, failures: Failures)
    requires Distinct(peers)
    ensures RemoveOthers(UpsertView(view, on, peers, failures), on, peers, {})
         == view - (set p | p in peers && p.name != on :: p.name)
  {
    var after := UpsertView(view, on, peers, failures);
    var removed := RemoveOthers(after, on, peers, {});
    var wanted := view - (set p | p in peers && p.name != on :: p.name);
    forall name ensures (name in removed <==> name in wanted) && (name in removed ==> removed[name] == wanted[name]) {
      RemoveIsPointwise(after, on, peers, {}, name);
      UpsertIsPointwise(view, on, peers, failures, name);
      if exists p :: p in peers && p.name == name {
        if name == on {
          var p :| p in peers && p.name == name;
          var i :| 0 <= i < |peers| && peers[i] == p;
        }
      } else {
        forall i | 0 <= i < |peers| ensures peers[i].name != name { assert peers[i] in peers; }
      }
    }
  }
}
