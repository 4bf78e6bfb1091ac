/** The naive pull of WalkOrder.dfy with everything that can stop it: at each node the entries
    the replica would take are applied, first those that need no download, then the files as
    they arrive. Which nodes can be left out without changing the outcome. */
module Visits {
  import opened Wrappers
  import opened Bytes
  import opened Paths
  import opened Entries
  import opened Tree
  import opened Ignore
  import opened Replicas
  import opened ReplicaFacts
  import opened Convergence
  import opened WalkOrder

  /** What lies outside the walk: the order in which downloads finish, which of them succeed,
      which entries can be installed, and what the disk shows afterwards. */
  datatype Outside = Outside(
    arrivals: seq<Entry>,
    completes: Entry -> bool,
    installs: Entry -> bool,
    probe: Text -> Event,
    rules: seq<Rule>,
    scan: Scan)

  // ---------- one node ----------

  /** The entries the replica would take. */
  function Wanted(r: Replica, es: seq<Entry>): (w: seq<Entry>)
    ensures forall e :: e in w <==> e in es && ShouldAccept(r, e)
  {
    if es == [] then [] else if ShouldAccept(r, es[0]) then [es[0]] + Wanted(r, es[1..]) else Wanted(r, es[1..])
  }

  function Fetches(net: Outside, es: seq<Entry>, hasTmp: bool): (fs: seq<Fetched>)
    ensures |fs| == |es| && forall i :: 0 <= i < |fs| ==> fs[i] == Fetched(es[i], hasTmp, net.installs(es[i]))
  {
    seq(|es|, i requires 0 <= i < |es| => Fetched(es[i], hasTmp, net.installs(es[i])))
  }

  ghost predicate Unhashed(es: seq<Entry>) {
    exists e :: e in es && e.kind == File && e.contentHash.None?
  }

  ghost predicate Unfinished(net: Outside, es: seq<Entry>) {
    exists e :: e in es && !net.completes(e)
  }

  /** The last phase: the files are downloaded, then applied as they arrive. */
  ghost function ApplyFiles(l: Log, files: seq<Entry>, net: Outside): BatchResult {
    var arrived := Arrived(net.arrivals, files);
    if Unfinished(net, arrived) then BatchResult(l, Some(Storage)) else ApplyBatch(l, Fetches(net, arrived, true))
  }

  /** The last two phases of `reconcile_entries`: what needs no download is applied, then
      the files. */
  ghost function ApplyWanted(l: Log, want: seq<Entry>, net: Outside): BatchResult {
    if Unhashed(want) then BatchResult(l, Some(Protocol)) else
      var first := ApplyBatch(l, Fetches(net, Others(want), false));
      if first.failed.Some? then first else ApplyFiles(first.log, Files(want), net)
  }

  /** `reconcile_entries` against a peer that answers truthfully. */
  ghost function VisitNode(l: Log, remote: Remote, k: Text, net: Outside): BatchResult
    requires CleanKeys(remote.entries.Keys)
  {
    ApplyWanted(l, Wanted(l.rep, Named(remote.entries, k)), net)
  }

  /** The nodes of a list, one after the other, until one fails. */
  ghost function VisitAll(l: Log, remote: Remote, ks: seq<Text>, net: Outside): BatchResult
    requires CleanKeys(remote.entries.Keys)
    decreases |ks|
  {
    if ks == [] then BatchResult(l, None) else
      var first := VisitNode(l, remote, ks[0], net);
      if first.failed.Some? then first else VisitAll(first.log, remote, ks[1..], net)
  }

  // ---------- a visit is a series of offers ----------

  lemma FetchesEntries(net: Outside, es: seq<Entry>, hasTmp: bool)
    ensures EntriesIn(Fetches(net, es, hasTmp)) == es
  {
  }

  lemma {:induction false} WantedThins(r: Replica, es: seq<Entry>)
    ensures Thins(r, es, Wanted(r, es))
    decreases |es|
  {
    if es != [] {
      AcceptIffNotDominated(r, es[0]);
      WantedThins(r, es[1..]);
      assert es == [es[0]] + es[1..];
      ThinsKeep(r, es[0], es[1..], Wanted(r, es[1..]));
    }
  }

  /** A visit that succeeds is the same as offering every entry of the node. */
  lemma VisitOffers(l: Log, remote: Remote, k: Text, net: Outside)
    requires RepOk(l.rep) && CleanKeys(remote.entries.Keys) && VisitNode(l, remote, k, net).failed.None?
    ensures VisitNode(l, remote, k, net).log == OfferAll(l, NodeOffers(remote, k, net.arrivals))
  {
    var want := Wanted(l.rep, Named(remote.entries, k));
    WantedThins(l.rep, Named(remote.entries, k));
    ThinNode(l, remote, k, net.arrivals, want);
    WantedOffers(l, want, net);
  }

  lemma WantedOffers(l: Log, want: seq<Entry>, net: Outside)
    requires ApplyWanted(l, want, net).failed.None?
    ensures ApplyWanted(l, want, net).log == OfferAll(OfferAll(l, Others(want)), Arrived(net.arrivals, Files(want)))
  {
    var first, files := Fetches(net, Others(want), false), Fetches(net, Arrived(net.arrivals, Files(want)), true);
    FetchesEntries(net, Others(want), false);
    FetchesEntries(net, Arrived(net.arrivals, Files(want)), true);
    BatchIsOffers(l, first);
    BatchIsOffers(ApplyBatch(l, first).log, files);
  }

  /** The entries of `es` are the peer's. */
  ghost predicate FromPeer(remote: Remote, es: seq<Entry>) {
    forall e :: e in es ==> e.path in remote.entries && remote.entries[e.path] == e
  }

  lemma NamedFromPeer(remote: Remote, k: Text)
    requires IndexOk(remote.entries)
    ensures FromPeer(remote, Named(remote.entries, k))
  {
    var es := Named(remote.entries, k);
    forall e | e in es ensures e.path in remote.entries && remote.entries[e.path] == e {
      var i :| 0 <= i < |es| && es[i] == e;
    }
  }

  // ---------- what can stop a walk ----------

  /** Error `err` may stop a walk at this entry: there is no content hash to ask for, the link
      has no usable target, or the download or the installation fails. */
  predicate Stops(net: Outside, e: Entry, err: Error) {
    && ValidRemotePath(e.path)
    && match err
       case Protocol => e.kind == File && e.contentHash.None?
       case InvalidInput => e.kind == Symlink && (e.symlinkTarget.None? || !ValidTarget(e.symlinkTarget.value))
       case Storage => (e.kind == File && !net.completes(e)) || !net.installs(e)
       case _ => false
  }

  /** A valid entry that cannot be applied. */
  predicate Obstacle(net: Outside, e: Entry) {
    Stops(net, e, Protocol) || Stops(net, e, InvalidInput) || Stops(net, e, Storage)
  }

  lemma BatchObstacle(l: Log, net: Outside, es: seq<Entry>, hasTmp: bool) returns (e: Entry)
    requires forall x :: x in es ==> ValidRemotePath(x.path) && (x.kind == File ==> hasTmp)
    requires ApplyBatch(l, Fetches(net, es, hasTmp)).failed.Some?
    ensures e in es && Stops(net, e, ApplyBatch(l, Fetches(net, es, hasTmp)).failed.value)
  {
    var f := BatchStopped(l, Fetches(net, es, hasTmp));
    e := f.entry;
    assert e in es;
  }

  /** A visit fails only at an obstacle. */
  lemma VisitObstacle(l: Log, remote: Remote, k: Text, net: Outside) returns (e: Entry)
    requires CleanKeys(remote.entries.Keys) && VisitNode(l, remote, k, net).failed.Some?
    ensures e in Named(remote.entries, k) && Stops(net, e, VisitNode(l, remote, k, net).failed.value)
  {
    var want := Wanted(l.rep, Named(remote.entries, k));
    var arrived := Arrived(net.arrivals, Files(want));
    var first := ApplyBatch(l, Fetches(net, Others(want), false));
    if Unhashed(want) {
      e :| e in want && e.kind == File && e.contentHash.None?;
    } else if first.failed.Some? {
      e := BatchObstacle(l, net, Others(want), false);
    } else if Unfinished(net, arrived) {
      e :| e in arrived && !net.completes(e);
    } else {
      e := BatchObstacle(first.log, net, arrived, true);
    }
  }

  /** A walk fails only at an obstacle among the peer's entries, and the error tells which
      kind of obstacle it was. */
  lemma {:induction false} VisitAllObstacle(l: Log, remote: Remote, ks: seq<Text>, net: Outside) returns (p: Text)
    requires IndexOk(remote.entries) && VisitAll(l, remote, ks, net).failed.Some?
    ensures p in remote.entries && Stops(net, remote.entries[p], VisitAll(l, remote, ks, net).failed.value)
    decreases |ks|
  {
    var first := VisitNode(l, remote, ks[0], net);
    if first.failed.Some? {
      var e := VisitObstacle(l, remote, ks[0], net);
      NamedFromPeer(remote, ks[0]);
      p := e.path;
    } else {
      p := VisitAllObstacle(first.log, remote, ks[1..], net);
    }
  }

  // ---------- how far a walk gets ----------

  /** None of the entries is an obstacle. */
  ghost predicate Free(net: Outside, es: seq<Entry>) {
    forall e :: e in es && ValidRemotePath(e.path) ==> !Obstacle(net, e)
  }

  lemma BatchSome(l: Log, remote: Remote, net: Outside, es: seq<Entry>, hasTmp: bool) returns (done: seq<Entry>)
    requires FromPeer(remote, es)
    requires forall e :: e in es && e.kind == File && hasTmp ==> e.contentHash.Some? && net.completes(e)
    ensures FromPeer(remote, done) && Free(net, done)
    ensures ApplyBatch(l, Fetches(net, es, hasTmp)).log == OfferAll(l, done)
  {
    var batch := Fetches(net, es, hasTmp);
    var taken := BatchTaken(l, batch);
    done := EntriesIn(taken);
    forall e | e in done ensures e in es && !Obstacle(net, e) {
      var i :| 0 <= i < |done| && done[i] == e;
      assert taken[i] in batch;
    }
  }

  lemma WantedSome(l: Log, remote: Remote, want: seq<Entry>, net: Outside) returns (done: seq<Entry>)
    requires FromPeer(remote, want)
    ensures FromPeer(remote, done) && Free(net, done) && ApplyWanted(l, want, net).log == OfferAll(l, done)
  {
    var arrived := Arrived(net.arrivals, Files(want));
    var first := ApplyBatch(l, Fetches(net, Others(want), false));
    if Unhashed(want) {
      done := [];
    } else {
      done := BatchSome(l, remote, net, Others(want), false);
      if first.failed.None? && !Unfinished(net, arrived) {
        var more := BatchSome(first.log, remote, net, arrived, true);
        OfferAppend(l, done, more);
        done := done + more;
      }
    }
  }

  /** However a visit ends, what it did is a series of offers of the peer's entries. */
  lemma VisitSome(l: Log, remote: Remote, k: Text, net: Outside) returns (done: seq<Entry>)
    requires IndexOk(remote.entries)
    ensures FromPeer(remote, done) && Free(net, done) && VisitNode(l, remote, k, net).log == OfferAll(l, done)
  {
    NamedFromPeer(remote, k);
    done := WantedSome(l, remote, Wanted(l.rep, Named(remote.entries, k)), net);
  }

  /** However far a walk gets, what it did is a series of offers of the peer's entries, none of
      which is an obstacle. */
  lemma {:induction false} VisitAllSome(l: Log, remote: Remote, ks: seq<Text>, net: Outside) returns (done: seq<Entry>)
    requires IndexOk(remote.entries)
    ensures FromPeer(remote, done) && Free(net, done) && VisitAll(l, remote, ks, net).log == OfferAll(l, done)
    decreases |ks|
  {
    if ks == [] {
      done := [];
    } else {
      var first := VisitNode(l, remote, ks[0], net);
      done := VisitSome(l, remote, ks[0], net);
      if first.failed.None? {
        var more := VisitAllSome(first.log, remote, ks[1..], net);
        OfferAppend(l, done, more);
        done := done + more;
      }
    }
  }

  /** A walk that succeeds is the naive pull. */
  lemma {:induction false} VisitAllOffers(l: Log, remote: Remote, ks: seq<Text>, net: Outside)
    requires RepOk(l.rep) && IndexOk(remote.entries) && VisitAll(l, remote, ks, net).failed.None?
    ensures VisitAll(l, remote, ks, net).log == OfferAll(l, Listing(remote, ks, net.arrivals))
    decreases |ks|
  {
    if ks != [] {
      var offers := NodeOffers(remote, ks[0], net.arrivals);
      VisitOffers(l, remote, ks[0], net);
      OffersAhead(l, offers);
      VisitAllOffers(VisitNode(l, remote, ks[0], net).log, remote, ks[1..], net);
      OfferAppend(l, offers, Listing(remote, ks[1..], net.arrivals));
    }
  }

  // ---------- visits that change nothing ----------

  /** Every entry of the listed nodes is dominated. */
  ghost predicate NodesDone(r: Replica, remote: Remote, ks: seq<Text>) {
    forall p :: p in remote.entries && Parent(p) in ks ==> Dominates(r, remote.entries[p])
  }

  lemma NamedDone(r: Replica, remote: Remote, k: Text, e: Entry)
    requires IndexOk(remote.entries) && NodesDone(r, remote, [k]) && e in Named(remote.entries, k)
    ensures Dominates(r, e)
  {
    var es, cs := Named(remote.entries, k), ChildPaths(remote.entries.Keys, k);
    var i :| 0 <= i < |es| && es[i] == e;
    ChildPath(remote.entries.Keys, k, cs[i]);
    assert Parent(cs[i]) in [k];
  }

  lemma {:induction false} WantedNone(r: Replica, es: seq<Entry>)
    requires forall e :: e in es ==> Dominates(r, e)
    ensures Wanted(r, es) == []
    decreases |es|
  {
    if es != [] {
      AcceptIffNotDominated(r, es[0]);
      WantedNone(r, es[1..]);
    }
  }

  lemma NodeIdle(l: Log, remote: Remote, k: Text, net: Outside)
    requires IndexOk(remote.entries) && NodesDone(l.rep, remote, [k])
    ensures VisitNode(l, remote, k, net) == BatchResult(l, None)
  {
    forall e | e in Named(remote.entries, k) ensures Dominates(l.rep, e) { NamedDone(l.rep, remote, k, e); }
    WantedNone(l.rep, Named(remote.entries, k));
    NoneArrive(net.arrivals);
  }

  lemma {:induction false} NoneArrive(arrivals: seq<Entry>)
    ensures Arrived(arrivals, []) == []
    decreases |arrivals|
  {
    if arrivals != [] { NoneArrive(arrivals[1..]); }
  }

  lemma {:induction false} NodesIdle(l: Log, remote: Remote, ks: seq<Text>, net: Outside)
    requires IndexOk(remote.entries) && NodesDone(l.rep, remote, ks)
    ensures VisitAll(l, remote, ks, net) == BatchResult(l, None)
    decreases |ks|
  {
    if ks != [] {
      NodeIdle(l, remote, ks[0], net);
      NodesIdle(l, remote, ks[1..], net);
    }
  }

  lemma {:induction false} VisitAppend(l: Log, remote: Remote, a: seq<Text>, b: seq<Text>, net: Outside)
    requires CleanKeys(remote.entries.Keys)
    ensures VisitAll(l, remote, a + b, net) ==
      var first := VisitAll(l, remote, a, net);
      if first.failed.Some? then first else VisitAll(first.log, remote, b, net)
    decreases |a|
  {
    if a == [] {
      assert a + b == b;
    } else {
      assert (a + b)[0] == a[0] && (a + b)[1..] == a[1..] + b;
      VisitAppend(VisitNode(l, remote, a[0], net).log, remote, a[1..], b, net);
    }
  }

  lemma NodesStayDone(a: Replica, b: Replica, remote: Remote, ks: seq<Text>)
    requires Ahead(a, b) && NodesDone(a, remote, ks)
    ensures NodesDone(b, remote, ks)
  {
    forall p | p in remote.entries && Parent(p) in ks ensures Dominates(b, remote.entries[p]) {
      StillDominates(a, b, remote.entries[p]);
    }
  }

  /** Nodes that are done may be left out of the middle of what is still to be visited. */
  lemma DropMiddle(l: Log, remote: Remote, a: seq<Text>, b: seq<Text>, c: seq<Text>, net: Outside)
    requires RepOk(l.rep) && IndexOk(remote.entries) && NodesDone(l.rep, remote, b)
    ensures VisitAll(l, remote, a + (b + c), net) == VisitAll(l, remote, a + c, net)
  {
    var first := VisitAll(l, remote, a, net);
    VisitAppend(l, remote, a, b + c, net);
    VisitAppend(l, remote, a, c, net);
    var done := VisitAllSome(l, remote, a, net);
    OffersAhead(l, done);
    NodesStayDone(l.rep, first.log.rep, remote, b);
    VisitAppend(first.log, remote, b, c, net);
    NodesIdle(first.log, remote, b, net);
  }

  // ---------- the stack ----------

  /** Every entry below `c` is dominated. */
  ghost predicate SubtreeDone(r: Replica, remote: Remote, c: Text) {
    forall p :: p in remote.entries && AtOrUnder(Parent(p), c) ==> Dominates(r, remote.entries[p])
  }

  lemma SubtreeStaysDone(a: Replica, b: Replica, remote: Remote, c: Text)
    requires Ahead(a, b) && SubtreeDone(a, remote, c)
    ensures SubtreeDone(b, remote, c)
  {
    forall p | p in remote.entries && AtOrUnder(Parent(p), c) ensures Dominates(b, remote.entries[p]) {
      StillDominates(a, b, remote.entries[p]);
    }
  }

  lemma PreorderDone(r: Replica, remote: Remote, c: Text)
    requires CleanKeys(remote.tree.nodes.Keys) && c in remote.tree.nodes && SubtreeDone(r, remote, c)
    ensures NodesDone(r, remote, Preorder(remote.tree.nodes.Keys, c))
  {
    forall p | p in remote.entries && Parent(p) in Preorder(remote.tree.nodes.Keys, c)
      ensures Dominates(r, remote.entries[p])
    {
      PreorderUnder(remote.tree.nodes.Keys, c, Parent(p));
    }
  }

  lemma PendingMiddle(keys: set<Text>, below: seq<Text>, c: Text, above: seq<Text>)
    requires CleanKeys(keys) && AllKeys(keys, below) && AllKeys(keys, above) && c in keys
    ensures AllKeys(keys, below + [c] + above) && AllKeys(keys, below + above)
    ensures Pending(keys, below + [c] + above) == Pending(keys, above) + (Preorder(keys, c) + Pending(keys, below))
    ensures Pending(keys, below + above) == Pending(keys, above) + Pending(keys, below)
  {
    PendingAppend(keys, below, [c]);
    PendingAppend(keys, below + [c], above);
    PendingAppend(keys, below, above);
    PendingOne(keys, c);
  }

  /** A subtree whose entries are dominated need not be visited. */
  lemma DropSubtree(l: Log, remote: Remote, below: seq<Text>, c: Text, above: seq<Text>, net: Outside)
    requires RepOk(l.rep) && IndexOk(remote.entries) && CleanKeys(remote.tree.nodes.Keys)
    requires AllKeys(remote.tree.nodes.Keys, below) && AllKeys(remote.tree.nodes.Keys, above)
    requires c in remote.tree.nodes && SubtreeDone(l.rep, remote, c)
    ensures AllKeys(remote.tree.nodes.Keys, below + [c] + above) && AllKeys(remote.tree.nodes.Keys, below + above)
    ensures VisitAll(l, remote, Pending(remote.tree.nodes.Keys, below + [c] + above), net)
         == VisitAll(l, remote, Pending(remote.tree.nodes.Keys, below + above), net)
    ensures |Pending(remote.tree.nodes.Keys, below + above)| < |Pending(remote.tree.nodes.Keys, below + [c] + above)|
  {
    var keys := remote.tree.nodes.Keys;
    PendingMiddle(keys, below, c, above);
    PreorderDone(l.rep, remote, c);
    DropMiddle(l, remote, Pending(keys, above), Preorder(keys, c), Pending(keys, below), net);
  }

  /** `some` is `all` without some of the prefixes whose subtrees are done. */
  ghost predicate Trims(r: Replica, remote: Remote, all: seq<Text>, some: seq<Text>)
    decreases |all|
  {
    if all == [] then some == [] else
      || (SubtreeDone(r, remote, all[0]) && Trims(r, remote, all[1..], some))
      || (some != [] && some[0] == all[0] && Trims(r, remote, all[1..], some[1..]))
  }

  lemma MoveOne(a: seq<Text>, b: seq<Text>)
    requires b != []
    ensures a + b == a + [b[0]] + b[1..]
  {
  }

  /** Pushing fewer prefixes does not matter as long as what they lead to is done. */
  lemma {:induction false} TrimStack(l: Log, remote: Remote, below: seq<Text>, all: seq<Text>, some: seq<Text>,
                                     net: Outside)
    requires RepOk(l.rep) && IndexOk(remote.entries) && CleanKeys(remote.tree.nodes.Keys)
    requires AllKeys(remote.tree.nodes.Keys, below) && AllKeys(remote.tree.nodes.Keys, all)
    requires Trims(l.rep, remote, all, some)
    ensures AllKeys(remote.tree.nodes.Keys, below + all) && AllKeys(remote.tree.nodes.Keys, below + some)
    ensures VisitAll(l, remote, Pending(remote.tree.nodes.Keys, below + some), net)
         == VisitAll(l, remote, Pending(remote.tree.nodes.Keys, below + all), net)
    ensures |Pending(remote.tree.nodes.Keys, below + some)| <= |Pending(remote.tree.nodes.Keys, below + all)|
    decreases |all|
  {
    if all != [] {
      MoveOne(below, all);
      if SubtreeDone(l.rep, remote, all[0]) && Trims(l.rep, remote, all[1..], some) {
        DropSubtree(l, remote, below, all[0], all[1..], net);
        TrimStack(l, remote, below, all[1..], some, net);
      } else {
        MoveOne(below, some);
        TrimStack(l, remote, below + [all[0]], all[1..], some[1..], net);
      }
    }
  }

  /** Visiting the node on top of the stack: it comes first, then those its children lead to. */
  lemma PendingTop(keys: set<Text>, below: seq<Text>, k: Text)
    requires CleanKeys(keys) && AllKeys(keys, below) && k in keys
    ensures AllKeys(keys, below + [k]) && AllKeys(keys, below + ChildPaths(keys, k))
    ensures Pending(keys, below + [k]) == [k] + Pending(keys, below + ChildPaths(keys, k))
  {
    var cs := ChildPaths(keys, k);
    PreorderPending(keys, k);
    PendingAppend(keys, below, cs);
    PendingAppend(keys, below, [k]);
    PendingOne(keys, k);
    PathsAssociate([k], Pending(keys, cs), Pending(keys, below));
  }

  lemma VisitFirst(l: Log, remote: Remote, k: Text, rest: seq<Text>, net: Outside)
    requires CleanKeys(remote.entries.Keys)
    ensures VisitAll(l, remote, [k] + rest, net) ==
      var first := VisitNode(l, remote, k, net);
      if first.failed.Some? then first else VisitAll(first.log, remote, rest, net)
  {
    assert ([k] + rest)[0] == k && ([k] + rest)[1..] == rest;
  }

  /** If the node on top cannot be visited, the walk ends there. */
  lemma VisitFailed(l: Log, remote: Remote, below: seq<Text>, k: Text, net: Outside)
    requires CleanKeys(remote.entries.Keys) && CleanKeys(remote.tree.nodes.Keys)
    requires AllKeys(remote.tree.nodes.Keys, below) && k in remote.tree.nodes
    requires VisitNode(l, remote, k, net).failed.Some?
    ensures AllKeys(remote.tree.nodes.Keys, below + [k])
    ensures VisitAll(l, remote, Pending(remote.tree.nodes.Keys, below + [k]), net) == VisitNode(l, remote, k, net)
  {
    var keys := remote.tree.nodes.Keys;
    PendingTop(keys, below, k);
    VisitFirst(l, remote, k, Pending(keys, below + ChildPaths(keys, k)), net);
  }

  /** After a visit only the prefixes of children that are not done need to be pushed. */
  lemma VisitedPrefix(l: Log, m: Log, remote: Remote, below: seq<Text>, k: Text, some: seq<Text>, net: Outside)
    requires RepOk(m.rep) && IndexOk(remote.entries) && CleanKeys(remote.tree.nodes.Keys)
    requires AllKeys(remote.tree.nodes.Keys, below) && k in remote.tree.nodes
    requires VisitNode(l, remote, k, net) == BatchResult(m, None)
    requires Trims(m.rep, remote, ChildPaths(remote.tree.nodes.Keys, k), some)
    ensures AllKeys(remote.tree.nodes.Keys, below + some) && AllKeys(remote.tree.nodes.Keys, below + [k])
    ensures VisitAll(m, remote, Pending(remote.tree.nodes.Keys, below + some), net)
         == VisitAll(l, remote, Pending(remote.tree.nodes.Keys, below + [k]), net)
    ensures |Pending(remote.tree.nodes.Keys, below + some)| < |Pending(remote.tree.nodes.Keys, below + [k])|
  {
    var keys, cs := remote.tree.nodes.Keys, ChildPaths(remote.tree.nodes.Keys, k);
    PendingTop(keys, below, k);
    PreorderPending(keys, k);
    TrimStack(m, remote, below, cs, some, net);
    VisitFirst(l, remote, k, Pending(keys, below + cs), net);
  }
}
