/** src/sync.rs: the reconciliation walk. A stack of prefixes drives it; equal hashes, hints
    and refused entries let it skip most of the peer's tree. Against a peer that does not change
    meanwhile its outcome, success or failure, is that of the naive pull of Visits.dfy. */
module Reconciliation {
  import opened Wrappers
  import opened Bytes
  import opened Paths
  import opened Entries
  import opened Tree
  import opened TreeBuild
  import opened TreeUpdate
  import opened Replicas
  import opened ReplicaFacts
  import opened Convergence
  import opened FolderStates
  import opened WalkOrder
  import opened Visits

  ghost predicate OutsideOk(remote: Remote, net: Outside) {
    && ArrivalsOk(remote, net.arrivals) && IndexOk(net.scan.found)
    && forall p :: Clean(p) ==> EventOk(net.probe(p)) && EventPath(net.probe(p)) == p
  }

  // ---------- the peer ----------

  /** `GetNode`. */
  function GetNode(remote: Remote, prefix: Text): Option<TreeNode> {
    var k := NormalizePrefix(prefix);
    if k in remote.tree.nodes then Some(remote.tree.nodes[k]) else None
  }

  /** `GetEntries`: the peer's entries at the names its node lists. */
  function GetEntries(remote: Remote, prefix: Text): Index {
    var k := NormalizePrefix(prefix);
    if k !in remote.tree.nodes then map[] else
      var ps := set n | n in remote.tree.nodes[k].entries :: Join(k, n);
      map p | p in ps && p in remote.entries :: remote.entries[p]
  }

  // ---------- what the tree shows meanwhile ----------

  /** Where a walk starts: the replica, and an index that its tree describes. The tree may be
      left behind; `nodes` are its prefixes, `current` says that both trees are up to date. */
  datatype Start = Start(rep: Replica, shown: Index, nodes: set<Text>, current: bool)

  /** The local index can hold `e` in the course of a walk. */
  ghost predicate Reached(r: Replica, remote: Remote, e: Entry) {
    exists es :: FromPeer(remote, es) && HoldsAfter(r, es, e)
  }

  ghost predicate HoldsAfter(r: Replica, es: seq<Entry>, e: Entry) {
    var idx := OfferAll(Log(r, []), es).rep.entries;
    e.path in idx && idx[e.path] == e
  }

  /** What the tree shows in the course of a walk: partly what it showed at first, partly what
      has been stored since, with new nodes on the way to that only. */
  ghost predicate Patchwork(start: Start, remote: Remote, t: TreeSnapshot, shown: Index) {
    && (forall p :: p in shown ==>
          (p in start.shown && start.shown[p] == shown[p]) || Reached(start.rep, remote, shown[p]))
    && (forall k :: k in t.nodes ==> k in start.nodes || OnTheWay(start.rep, remote, k))
  }

  ghost predicate OnTheWay(r: Replica, remote: Remote, k: Text) {
    exists e :: Reached(r, remote, e) && OnPathOf(k, e.path)
  }

  /** The tree describes an index that the replica has passed. */
  ghost predicate Trails(h: Hasher, t: TreeSnapshot, r: Replica, shown: Index) {
    Consistent(h, t, shown) && Passed(r, shown)
  }

  ghost predicate StillTrails(start: Start, remote: Remote, h: Hasher, t: TreeSnapshot, r: Replica, shown: Index) {
    Trails(h, t, r, shown) && Patchwork(start, remote, t, shown)
  }

  // ---------- the strings that must not collide ----------

  ghost predicate Encoded(h: Hasher, play: iset<Text>, start: Start, remote: Remote, t: TreeSnapshot, shown: Index) {
    Consistent(h, t, shown) && Patchwork(start, remote, t, shown) ==> InPlay(play, t, shown)
  }

  /** No collision among the strings hashed for the peer's tree and for any tree the node
      can have during the walk. */
  ghost predicate InReach(h: Hasher, play: iset<Text>, start: Start, remote: Remote) {
    && InjectiveOn(h, play)
    && Consistent(h, remote.tree, remote.entries) && InPlay(play, remote.tree, remote.entries)
    && forall t, shown {:trigger Encoded(h, play, start, remote, t, shown)} :: Encoded(h, play, start, remote, t, shown)
  }

  /** The tree may have been left behind, but not by more than it was at the start. */
  ghost predicate Tracks(state: FolderState, remote: Remote, start: Start)
    reads state
  {
    state.Sound() && exists shown :: StillTrails(start, remote, state.hash, state.tree, state.View(), shown)
  }

  /** The state during a walk: `done` has been offered to the replica so far. */
  ghost predicate Walking(state: FolderState, play: iset<Text>, remote: Remote, start: Start, done: seq<Entry>,
                          changes: seq<Change>)
    reads state
  {
    && Tracks(state, remote, start) && (start.current ==> state.Valid())
    && RepOk(start.rep) && InReach(state.hash, play, start, remote)
    && FromPeer(remote, done) && Log(state.View(), changes) == OfferAll(Log(start.rep, []), done)
  }

  lemma WalkingShown(state: FolderState, play: iset<Text>, remote: Remote, start: Start, done: seq<Entry>,
                     changes: seq<Change>) returns (shown: Index)
    requires Walking(state, play, remote, start, done, changes)
    ensures Comparable(state.hash, play, remote.tree, remote.entries, state.tree, shown) && Passed(state.View(), shown)
    ensures StillTrails(start, remote, state.hash, state.tree, state.View(), shown)
  {
    shown :| StillTrails(start, remote, state.hash, state.tree, state.View(), shown);
    assert Encoded(state.hash, play, start, remote, state.tree, shown);
  }

  /** Further offers leave the replica ahead of what its tree shows. */
  lemma StillPassed(l: Log, es: seq<Entry>, shown: Index)
    requires RepOk(l.rep) && Passed(l.rep, shown)
    ensures Passed(OfferAll(l, es).rep, shown)
  {
    OffersAhead(l, es);
    forall p | p in shown ensures Dominates(OfferAll(l, es).rep, shown[p]) {
      StillDominates(l.rep, OfferAll(l, es).rep, shown[p]);
    }
  }

  /** A batch that fails leaves the tree behind, but the replica ahead of what it shows. */
  lemma FailedBatchTrails(h: Hasher, t: TreeSnapshot, l: Log, batch: seq<Fetched>, shown: Index)
    requires RepOk(l.rep) && Trails(h, t, l.rep, shown)
    ensures Trails(h, t, ApplyBatch(l, batch).log.rep, shown)
  {
    var n := BatchPrefix(l, batch);
    StillPassed(l, EntriesIn(batch[..n]), shown);
  }

  /** What an update of the tree shows, the replica has passed. */
  lemma MixedPassed(keys: set<Text>, shown: Index, changed: seq<Text>, r: Replica)
    requires RepOk(r) && Passed(r, shown)
    ensures Passed(r, Mixed(keys, shown, r.entries, changed))
  {
    var m := Mixed(keys, shown, r.entries, changed);
    forall p | p in m ensures Dominates(r, m[p]) { MixedAt(keys, shown, r.entries, changed, p); }
  }

  lemma MixedReached(keys: set<Text>, start: Start, remote: Remote, t: TreeSnapshot, shown: Index, changed: seq<Text>,
                     done: seq<Entry>, r: Replica)
    requires Patchwork(start, remote, t, shown) && FromPeer(remote, done) && IndexOk(r.entries)
    requires r == OfferAll(Log(start.rep, []), done).rep
    ensures
      var m := Mixed(keys, shown, r.entries, changed);
      forall p :: p in m ==> (p in start.shown && start.shown[p] == m[p]) || Reached(start.rep, remote, m[p])
  {
    var m := Mixed(keys, shown, r.entries, changed);
    forall p | p in m ensures (p in start.shown && start.shown[p] == m[p]) || Reached(start.rep, remote, m[p]) {
      MixedAt(keys, shown, r.entries, changed, p);
      if p in r.entries && m[p] == r.entries[p] { assert HoldsAfter(start.rep, done, m[p]); }
    }
  }

  /** What offers have changed is in the index. */
  lemma {:induction false} ChangesHeld(l: Log, es: seq<Entry>, k: nat)
    requires RepOk(l.rep)
    ensures |l.changes| <= |OfferAll(l, es).changes|
    ensures |l.changes| <= k < |OfferAll(l, es).changes| ==>
      OfferAll(l, es).changes[k].path in OfferAll(l, es).rep.entries
    decreases |es|
  {
    if es != [] {
      var m := Offer(l, es[0]);
      OfferOk(l, es[0]);
      OffersLogged(m, es[1..]);
      OfferAllNotOlder(m, es[1..], []);
      ChangesHeld(m, es[1..], k);
      if ShouldAccept(l.rep, es[0]) {
        AcceptGrows(l, es[0]);
        if |l.changes| <= k < |m.changes| {
          var s := Store(l, es[0]);
          assert m.changes[k].path in m.rep.entries by { if |s.changes| <= k { assert Issued(s, m, k); } }
          OfferAllNotOlder(m, es[1..], m.changes[k].path);
          assert NotOlder(m.rep.entries, OfferAll(m, es[1..]).rep.entries, m.changes[k].path);
        }
      }
    }
  }

  // ---------- hints ----------

  /** A hinted node whose hash is its own. */
  predicate Genuine(h: Hasher, n: TreeNode) {
    HashOf(h, n) == n.hash
  }

  ghost predicate LastHint(h: Hasher, hints: seq<TreeNode>, k: Text, i: nat) {
    && i < |hints| && Genuine(h, hints[i]) && NormalizePrefix(hints[i].prefix) == k
    && forall j :: i < j < |hints| && Genuine(h, hints[j]) ==> NormalizePrefix(hints[j].prefix) != k
  }

  /** `n` is the last genuine hint for the prefix `k`. */
  ghost predicate Hinted(h: Hasher, hints: seq<TreeNode>, k: Text, n: TreeNode) {
    exists i: nat :: LastHint(h, hints, k, i) && hints[i] == n
  }

  lemma HintedLater(h: Hasher, hints: seq<TreeNode>, next: TreeNode, k: Text, n: TreeNode)
    requires Hinted(h, hints, k, n) && (Genuine(h, next) ==> NormalizePrefix(next.prefix) != k)
    ensures Hinted(h, hints + [next], k, n)
  {
    var i: nat :| LastHint(h, hints, k, i) && hints[i] == n;
    assert LastHint(h, hints + [next], k, i);
  }

  lemma HintedNow(h: Hasher, hints: seq<TreeNode>, next: TreeNode)
    requires Genuine(h, next)
    ensures Hinted(h, hints + [next], NormalizePrefix(next.prefix), next)
  {
    assert LastHint(h, hints + [next], NormalizePrefix(next.prefix), |hints|);
  }

  /** `HintedNodes::from`: the genuine hints by prefix, the last one for each. */
  method HintedNodes(h: Hasher, hints: seq<TreeNode>) returns (m: map<Text, TreeNode>)
    ensures forall k :: k in m ==> Hinted(h, hints, k, m[k])
    ensures forall n :: n in hints && Genuine(h, n) ==> NormalizePrefix(n.prefix) in m
  {
    m := map[];
    for i := 0 to |hints|
      invariant forall k :: k in m ==> Hinted(h, hints[..i], k, m[k])
      invariant forall n :: n in hints[..i] && Genuine(h, n) ==> NormalizePrefix(n.prefix) in m
    {
      ghost var m0 := m;
      var node := hints[i];
      assert hints[..i + 1] == hints[..i] + [node];
      var hash := HashNode(h, node.prefix, node.entries, node.children);
      if hash == node.hash {
        HintedNow(h, hints[..i], node);
        m := m[NormalizePrefix(node.prefix) := node];
      }
      forall k | k in m && (hash != node.hash || k != NormalizePrefix(node.prefix))
        ensures Hinted(h, hints[..i + 1], k, m[k])
      {
        HintedLater(h, hints[..i], node, k, m0[k]);
      }
    }
    assert hints[..|hints|] == hints;
  }

  /** `HintedNodes::get`. */
  function HintFor(hinted: map<Text, TreeNode>, prefix: Text, expected: Digest): Option<TreeNode> {
    var k := NormalizePrefix(prefix);
    if k in hinted && hinted[k].hash == expected then Some(hinted[k]) else None
  }

  ghost predicate HintsOk(h: Hasher, play: iset<Text>, hinted: map<Text, TreeNode>) {
    forall k :: k in hinted ==> Genuine(h, hinted[k]) && NodeSized(hinted[k]) && NodeInPlay(play, hinted[k])
  }

  /** The node the walk works with: from the hints, or else from the peer. When the peer
      has the expected hash there, the hints make no difference. */
  method FetchNode(h: Hasher, remote: Remote, hinted: map<Text, TreeNode>, prefix: Text, expected: Digest,
                   ghost play: iset<Text>)
    returns (r: Result<TreeNode>)
    requires InjectiveOn(h, play) && HintsOk(h, play, hinted) && CleanOrRoot(prefix)
    requires Consistent(h, remote.tree, remote.entries) && InPlay(play, remote.tree, remote.entries)
    ensures prefix in remote.tree.nodes && remote.tree.nodes[prefix].hash == expected ==>
      r == Ok(remote.tree.nodes[prefix])
    ensures prefix !in remote.tree.nodes || remote.tree.nodes[prefix].hash != expected ==>
      r == match HintFor(hinted, prefix, expected) case Some(n) => Ok(n) case None => Err(Protocol)
  {
    NormalizeDisplay(prefix);
    var hint := HintFor(hinted, prefix, expected);
    var node: TreeNode;
    if hint.Some? {
      node := hint.value;
      if prefix in remote.tree.nodes && remote.tree.nodes[prefix].hash == expected {
        SameHashSameNode(h, play, remote.tree, remote.entries, prefix, node);
      }
    } else {
      var answer := GetNode(remote, prefix);
      if answer.None? { return Err(Protocol); }
      node := answer.value;
    }
    if node.hash != expected { return Err(Protocol); }
    return Ok(node);
  }

  // ---------- one node: which entries to ask for ----------

  /** An entry with the same hash on both sides is already there. */
  lemma SameHashDominated(h: Hasher, play: iset<Text>, remote: Remote, tree: TreeSnapshot, shown: Index, r: Replica,
                          k: Text, name: Text)
    requires Comparable(h, play, remote.tree, remote.entries, tree, shown) && Passed(r, shown)
    requires k in tree.nodes && name in ChildNames(remote.entries.Keys, k) && name in tree.nodes[k].entries
    requires Join(k, name) in remote.entries
    requires tree.nodes[k].entries[name] == EntryHash(h, remote.entries[Join(k, name)])
    ensures Dominates(r, remote.entries[Join(k, name)])
  {
    ChildName(remote.entries.Keys, k, name);
    SameEntry(h, play, remote.tree, remote.entries, tree, shown, Join(k, name));
  }

  /** `all` has the peer's own entry at `path`. */
  ghost predicate TrueAt(all: Index, remote: Remote, path: Text) {
    path in remote.entries && path in all && all[path] == remote.entries[path]
  }

  /** The two trees can be compared, and `localNode` is what the local one has at `prefix`. */
  ghost predicate Alongside(state: FolderState, play: iset<Text>, remote: Remote, shown: Index, prefix: Text,
                            localNode: Option<TreeNode>)
    reads state
  {
    && Comparable(state.hash, play, remote.tree, remote.entries, state.tree, shown) && Passed(state.View(), shown)
    && localNode == (if prefix in state.tree.nodes then Some(state.tree.nodes[prefix]) else None)
  }

  /** The peer has an entry of that name and hash in the node. */
  ghost predicate NameAt(h: Hasher, remote: Remote, k: Text, name: Text, hash: Digest) {
    && name in ChildNames(remote.entries.Keys, k) && Join(k, name) in remote.entries
    && hash == EntryHash(h, remote.entries[Join(k, name)])
  }

  /** Whether one entry of the node has to be applied: nothing, or just this entry. A true
      answer is never refused. */
  method SelectEntry(state: FolderState, remote: Remote, prefix: Text, name: Text, localNode: Option<TreeNode>,
                     remoteHash: Digest, all: Index, ghost play: iset<Text>, ghost shown: Index)
    returns (r: Result<seq<Entry>>)
    requires Alongside(state, play, remote, shown, prefix, localNode)
    requires NameAt(state.hash, remote, prefix, name, remoteHash)
    ensures TrueAt(all, remote, Join(prefix, name)) ==>
      r == Ok(Wanted(state.View(), [remote.entries[Join(prefix, name)]]))
    ensures r.Err? ==> r.error == Protocol
  {
    if localNode.Some? && name in localNode.value.entries && localNode.value.entries[name] == remoteHash {
      SameHashDominated(state.hash, play, remote, state.tree, shown, state.View(), prefix, name);
      WantedNone(state.View(), [remote.entries[Join(prefix, name)]]);
      return Ok([]);
    }
    var path := Join(prefix, name);
    if path !in all { return Err(Protocol); }
    var e := all[path];
    if EntryHash(state.hash, e) != remoteHash { return Err(Protocol); }
    WantedOne(state.View(), e);
    if !ShouldAccept(Replica(state.origin, state.lamport, state.gcWatermark, state.entries), e) { return Ok([]); }
    return Ok([e]);
  }

  lemma WantedOne(r: Replica, e: Entry)
    ensures Wanted(r, [e]) == if ShouldAccept(r, e) then [e] else []
  {
    assert [e][1..] == [];
  }

  lemma {:induction false} WantedAppend(r: Replica, a: seq<Entry>, b: seq<Entry>)
    ensures Wanted(r, a + b) == Wanted(r, a) + Wanted(r, b)
    decreases |a|
  {
    if a == [] {
      assert a + b == b;
    } else {
      assert (a + b)[0] == a[0] && (a + b)[1..] == a[1..] + b;
      WantedAppend(r, a[1..], b);
    }
  }

  /** `all` answers truthfully for every entry of the node. */
  ghost predicate Truthful(all: Index, remote: Remote, k: Text) {
    forall name {:trigger TrueAt(all, remote, Join(k, name))} ::
      name in ChildNames(remote.entries.Keys, k) ==> TrueAt(all, remote, Join(k, name))
  }

  lemma AnswerIsTrue(h: Hasher, remote: Remote, k: Text)
    requires Consistent(h, remote.tree, remote.entries) && k in remote.tree.nodes
    ensures Truthful(GetEntries(remote, k), remote, k)
  {
    NormalizeDisplay(k);
    NodeNames(h, remote, k);
    forall name | name in ChildNames(remote.entries.Keys, k)
      ensures TrueAt(GetEntries(remote, k), remote, Join(k, name))
    {
      NodeNameHash(h, remote, k, name);
    }
  }

  lemma NodeNames(h: Hasher, remote: Remote, k: Text)
    requires Consistent(h, remote.tree, remote.entries) && k in remote.tree.nodes
    ensures remote.tree.nodes[k].entries.Keys == ChildNames(remote.entries.Keys, k)
    ensures remote.tree.nodes[k].children.Keys == ChildNames(remote.tree.nodes.Keys, k)
  {
    assert NodeOk(h, remote.entries, remote.tree.nodes, k);
    DirectKeys(h, remote.entries, remote.tree.nodes, k);
  }

  lemma NodeNameHash(h: Hasher, remote: Remote, k: Text, name: Text)
    requires Consistent(h, remote.tree, remote.entries) && k in remote.tree.nodes
    requires name in ChildNames(remote.entries.Keys, k)
    ensures Join(k, name) in remote.entries && name in remote.tree.nodes[k].entries
    ensures remote.tree.nodes[k].entries[name] == EntryHash(h, remote.entries[Join(k, name)])
  {
    assert NodeOk(h, remote.entries, remote.tree.nodes, k);
    ChildName(remote.entries.Keys, k, name);
  }

  lemma NamedAt(idx: Index, k: Text, i: nat)
    requires CleanKeys(idx.Keys) && i < |Sorted(ChildNames(idx.Keys, k))|
    ensures i < |Named(idx, k)| && Sorted(ChildNames(idx.Keys, k))[i] in ChildNames(idx.Keys, k)
    ensures Join(k, Sorted(ChildNames(idx.Keys, k))[i]) in idx
    ensures Named(idx, k)[i] == idx[Join(k, Sorted(ChildNames(idx.Keys, k))[i])]
  {
    var names := Sorted(ChildNames(idx.Keys, k));
    assert names[i] in names;
  }

  /** The node lists, by name and hash, the entries that are filed directly below it. */
  lemma NodeListing(h: Hasher, remote: Remote, k: Text, names: seq<Text>, i: nat)
    requires Consistent(h, remote.tree, remote.entries) && k in remote.tree.nodes
    requires names == Sorted(remote.tree.nodes[k].entries.Keys) && i < |names|
    ensures i < |Named(remote.entries, k)| && Join(k, names[i]) in remote.entries
    ensures Named(remote.entries, k)[i] == remote.entries[Join(k, names[i])]
    ensures names[i] in ChildNames(remote.entries.Keys, k) && names[i] in remote.tree.nodes[k].entries
    ensures remote.tree.nodes[k].entries[names[i]] == EntryHash(h, remote.entries[Join(k, names[i])])
  {
    NodeNames(h, remote, k);
    NamedAt(remote.entries, k, i);
    NodeNameHash(h, remote, k, names[i]);
  }

  lemma ListingLength(h: Hasher, remote: Remote, k: Text)
    requires Consistent(h, remote.tree, remote.entries) && k in remote.tree.nodes
    ensures |Sorted(remote.tree.nodes[k].entries.Keys)| == |Named(remote.entries, k)|
  {
    NodeNames(h, remote, k);
  }

  lemma TakeAll(es: seq<Entry>)
    ensures es[..|es|] == es && es[..0] == []
  {
  }

  lemma WantedSnoc(r: Replica, named: seq<Entry>, i: nat)
    requires i < |named|
    ensures Wanted(r, named[..i + 1]) == Wanted(r, named[..i]) + Wanted(r, [named[i]])
  {
    assert named[..i + 1] == named[..i] + [named[i]];
    WantedAppend(r, named[..i], [named[i]]);
  }

  /** From true answers, `out` is what is wanted of the first `i` entries of the node. */
  ghost predicate Sifted(out: seq<Entry>, all: Index, remote: Remote, k: Text, r: Replica, i: nat)
    requires CleanKeys(remote.entries.Keys)
  {
    && i <= |Named(remote.entries, k)|
    && (Truthful(all, remote, k) ==> out == Wanted(r, Named(remote.entries, k)[..i]))
  }

  lemma NameListed(h: Hasher, remote: Remote, k: Text, names: seq<Text>, i: nat)
    requires Consistent(h, remote.tree, remote.entries) && k in remote.tree.nodes
    requires names == Sorted(remote.tree.nodes[k].entries.Keys) && i < |names|
    ensures names[i] in remote.tree.nodes[k].entries
    ensures NameAt(h, remote, k, names[i], remote.tree.nodes[k].entries[names[i]])
  {
    NodeListing(h, remote, k, names, i);
  }

  /** The name at `i`, and what it adds to what is wanted. */
  lemma SiftOne(h: Hasher, remote: Remote, k: Text, names: seq<Text>, i: nat, all: Index, r: Replica, out: seq<Entry>,
                one: Result<seq<Entry>>)
    requires Consistent(h, remote.tree, remote.entries) && k in remote.tree.nodes
    requires names == Sorted(remote.tree.nodes[k].entries.Keys) && i < |names| && Sifted(out, all, remote, k, r, i)
    requires Join(k, names[i]) in remote.entries
    requires TrueAt(all, remote, Join(k, names[i])) ==> one == Ok(Wanted(r, [remote.entries[Join(k, names[i])]]))
    ensures one.Ok? ==> Sifted(out + one.value, all, remote, k, r, i + 1)
    ensures one.Err? ==> !Truthful(all, remote, k)
  {
    NodeListing(h, remote, k, names, i);
    WantedSnoc(r, Named(remote.entries, k), i);
  }

  lemma SiftEnds(h: Hasher, remote: Remote, k: Text, all: Index, r: Replica, out: seq<Entry>)
    requires Consistent(h, remote.tree, remote.entries) && k in remote.tree.nodes
    ensures Sifted([], all, remote, k, r, 0)
    ensures Sifted(out, all, remote, k, r, |Sorted(remote.tree.nodes[k].entries.Keys)|) && Truthful(all, remote, k) ==>
      out == Wanted(r, Named(remote.entries, k))
  {
    ListingLength(h, remote, k);
    TakeAll(Named(remote.entries, k));
  }

  /** The first phase of `reconcile_entries`: the entries of the node that have to be applied.
      From a true answer these are exactly the ones the replica would take. */
  method SelectEntries(state: FolderState, remote: Remote, prefix: Text, localNode: Option<TreeNode>,
                       remoteNode: TreeNode, all: Index, ghost play: iset<Text>, ghost shown: Index)
    returns (r: Result<seq<Entry>>)
    requires Alongside(state, play, remote, shown, prefix, localNode)
    requires prefix in remote.tree.nodes && remoteNode == remote.tree.nodes[prefix]
    ensures Truthful(all, remote, prefix) ==> r == Ok(Wanted(state.View(), Named(remote.entries, prefix)))
    ensures r.Err? ==> r.error == Protocol
  {
    var names := Sorted(remoteNode.entries.Keys);
    var toApply: seq<Entry> := [];
    SiftEnds(state.hash, remote, prefix, all, state.View(), toApply);
    for i := 0 to |names|
      invariant Sifted(toApply, all, remote, prefix, state.View(), i)
    {
      NameListed(state.hash, remote, prefix, names, i);
      var hash := remoteNode.entries[names[i]];
      var one := SelectEntry(state, remote, prefix, names[i], localNode, hash, all, play, shown);
      SiftOne(state.hash, remote, prefix, names, i, all, state.View(), toApply, one);
      if one.Err? { return one; }
      toApply := toApply + one.value;
    }
    SiftEnds(state.hash, remote, prefix, all, state.View(), toApply);
    return Ok(toApply);
  }

  // ---------- one node: applying them ----------

  lemma FetchesCons(net: Outside, e: Entry, es: seq<Entry>, hasTmp: bool)
    ensures Fetches(net, [e] + es, hasTmp) == [Fetched(e, hasTmp, net.installs(e))] + Fetches(net, es, hasTmp)
  {
  }

  lemma SnocFetched(a: seq<Fetched>, f: Fetched, rest: seq<Fetched>)
    ensures (a + [f]) + rest == a + ([f] + rest)
  {
  }

  lemma Snoc(a: seq<Entry>, e: Entry, rest: seq<Entry>)
    ensures (a + [e]) + rest == a + ([e] + rest)
  {
  }

  /** `batch` and `files` are the parts of `es` up to `i`. */
  ghost predicate Parted(net: Outside, batch: seq<Fetched>, files: seq<Entry>, es: seq<Entry>, i: nat)
    requires i <= |es|
  {
    && batch + Fetches(net, Others(es[i..]), false) == Fetches(net, Others(es), false)
    && files + Files(es[i..]) == Files(es)
  }

  lemma PartedStep(net: Outside, batch: seq<Fetched>, files: seq<Entry>, es: seq<Entry>, i: nat)
    requires i < |es| && Parted(net, batch, files, es, i)
    ensures es[i].kind == File ==> Parted(net, batch, files + [es[i]], es, i + 1)
    ensures es[i].kind != File ==> Parted(net, batch + [Fetched(es[i], false, net.installs(es[i]))], files, es, i + 1)
  {
    var e := es[i];
    assert es[i..][0] == e && es[i..][1..] == es[i + 1..];
    if e.kind == File {
      Snoc(files, e, Files(es[i + 1..]));
    } else {
      FetchesCons(net, e, Others(es[i + 1..]), false);
      SnocFetched(batch, Fetched(e, false, net.installs(e)), Fetches(net, Others(es[i + 1..]), false));
    }
  }

  lemma PartedWhole(net: Outside, batch: seq<Fetched>, files: seq<Entry>, es: seq<Entry>)
    ensures Parted(net, [], [], es, 0)
    ensures Parted(net, batch, files, es, |es|) ==> batch == Fetches(net, Others(es), false) && files == Files(es)
  {
    assert es[0..] == es && es[|es|..] == [];
    assert Fetches(net, [], false) == [];
    assert batch + [] == batch && files + [] == files;
    assert [] + Fetches(net, Others(es), false) == Fetches(net, Others(es), false) && [] + Files(es) == Files(es);
  }

  /** Split off the files, which have to be downloaded first. */
  method Partition(toApply: seq<Entry>, net: Outside) returns (r: Result<(seq<Fetched>, seq<Entry>)>)
    ensures Unhashed(toApply) ==> r == Err(Protocol)
    ensures !Unhashed(toApply) ==> r == Ok((Fetches(net, Others(toApply), false), Files(toApply)))
  {
    var batch: seq<Fetched>, files: seq<Entry> := [], [];
    PartedWhole(net, [], [], toApply);
    for i := 0 to |toApply|
      invariant Parted(net, batch, files, toApply, i)
      invariant forall j :: 0 <= j < i && toApply[j].kind == File ==> toApply[j].contentHash.Some?
    {
      var e := toApply[i];
      PartedStep(net, batch, files, toApply, i);
      if e.kind == File {
        if e.contentHash.None? { return Err(Protocol); }
        files := files + [e];
      } else {
        batch := batch + [Fetched(e, false, net.installs(e))];
      }
    }
    PartedWhole(net, batch, files, toApply);
    return Ok((batch, files));
  }

  /** `batch` holds those of `files` that have arrived up to `i`. */
  ghost predicate Fetching(net: Outside, batch: seq<Fetched>, files: seq<Entry>, i: nat)
    requires i <= |net.arrivals|
  {
    batch + Fetches(net, Arrived(net.arrivals[i..], files), true) == Fetches(net, Arrived(net.arrivals, files), true)
  }

  lemma FetchingStep(net: Outside, batch: seq<Fetched>, files: seq<Entry>, i: nat)
    requires i < |net.arrivals| && Fetching(net, batch, files, i)
    ensures
      var e := net.arrivals[i];
      Fetching(net, if e in files then batch + [Fetched(e, true, net.installs(e))] else batch, files, i + 1)
  {
    var a, e := net.arrivals, net.arrivals[i];
    assert a[i..][0] == e && a[i..][1..] == a[i + 1..];
    if e in files {
      FetchesCons(net, e, Arrived(a[i + 1..], files), true);
      SnocFetched(batch, Fetched(e, true, net.installs(e)), Fetches(net, Arrived(a[i + 1..], files), true));
    }
  }

  lemma FetchingWhole(net: Outside, batch: seq<Fetched>, files: seq<Entry>)
    ensures Fetching(net, [], files, 0)
    ensures Fetching(net, batch, files, |net.arrivals|) ==> batch == Fetches(net, Arrived(net.arrivals, files), true)
  {
    var a := net.arrivals;
    assert a[0..] == a && a[|a|..] == [];
    assert Fetches(net, [], true) == [];
    assert batch + [] == batch;
    assert [] + Fetches(net, Arrived(a, files), true) == Fetches(net, Arrived(a, files), true);
  }

  /** Collect the downloads as they finish; the first that fails ends it. */
  method Download(files: seq<Entry>, net: Outside) returns (r: Result<seq<Fetched>>)
    ensures Unfinished(net, Arrived(net.arrivals, files)) ==> r == Err(Storage)
    ensures !Unfinished(net, Arrived(net.arrivals, files)) ==> r == Ok(Fetches(net, Arrived(net.arrivals, files), true))
  {
    var batch: seq<Fetched>, a := [], net.arrivals;
    FetchingWhole(net, [], files);
    for i := 0 to |a|
      invariant Fetching(net, batch, files, i)
      invariant forall j :: 0 <= j < i && a[j] in files ==> net.completes(a[j])
    {
      FetchingStep(net, batch, files, i);
      if a[i] in files {
        if !net.completes(a[i]) { return Err(Storage); }
        batch := batch + [Fetched(a[i], true, net.installs(a[i]))];
      }
    }
    FetchingWhole(net, batch, files);
    return Ok(batch);
  }

  // ---------- one node: the whole of it ----------

  /** Apply a batch in the course of a walk. */
  method ApplyInWalk(state: FolderState, remote: Remote, batch: seq<Fetched>, changes: seq<Change>,
                     ghost play: iset<Text>, ghost start: Start, ghost done: seq<Entry>)
    returns (r: Result<seq<Change>>)
    requires Walking(state, play, remote, start, done, changes) && FromPeer(remote, EntriesIn(batch))
    modifies state`lamport, state`entries, state`tree, state`liveTree
    ensures EndsAs(ApplyBatch(Log(old(state.View()), changes), batch), r, state.View())
    ensures Tracks(state, remote, start)
    ensures r.Ok? ==> Walking(state, play, remote, start, done + EntriesIn(batch), r.value)
  {
    ghost var before, tree := Log(state.View(), []), state.tree;
    ghost var shown := WalkingShown(state, play, remote, start, done, changes);
    assert Shift(changes, before) == Log(state.View(), changes);
    ShiftBatch(changes, before, batch);
    if batch == [] {
      NoEntries(batch, done);
      return Ok(changes);
    }
    var applied := state.ApplyRemoteEntries(batch);
    if applied.Err? {
      FailedBatchTrails(state.hash, tree, before, batch, shown);
      assert StillTrails(start, remote, state.hash, state.tree, state.View(), shown);
      return Err(applied.error);
    }
    BatchIsOffers(before, batch);
    BatchIsOffers(Log(before.rep, changes), batch);
    OfferAppend(Log(start.rep, []), done, EntriesIn(batch));
    assert FromPeer(remote, done + EntriesIn(batch));
    StillWalks(start, remote, state.hash, tree, state.tree, before, EntriesIn(batch), shown, done);
    r := Ok(changes + applied.value);
  }

  lemma TouchedOnTheWay(start: Start, remote: Remote, before: Log, es: seq<Entry>, done: seq<Entry>, k: Text)
    requires RepOk(before.rep) && before.changes == [] && FromPeer(remote, done + es)
    requires RepOk(OfferAll(before, es).rep)
    requires OfferAll(before, es).rep == OfferAll(Log(start.rep, []), done + es).rep
    requires Touched(PathsOf(OfferAll(before, es).changes), k)
    ensures OnTheWay(start.rep, remote, k)
  {
    var r, changed := OfferAll(before, es).rep, PathsOf(OfferAll(before, es).changes);
    var p :| p in changed && OnPathOf(k, p);
    var i :| 0 <= i < |changed| && changed[i] == p;
    ChangesHeld(before, es, i);
    assert HoldsAfter(start.rep, done + es, r.entries[p]);
  }

  /** An update of the tree in the course of a walk. */
  lemma StillWalks(start: Start, remote: Remote, h: Hasher, was: TreeSnapshot, now: TreeSnapshot, before: Log,
                   es: seq<Entry>, shown: Index, done: seq<Entry>)
    requires RepOk(before.rep) && before.changes == [] && RepOk(start.rep)
    requires FromPeer(remote, done + es)
    requires OfferAll(before, es).rep == OfferAll(Log(start.rep, []), done + es).rep
    requires StillTrails(start, remote, h, was, before.rep, shown)
    requires MixedTree(h, was, shown, OfferAll(before, es).rep.entries, PathsOf(OfferAll(before, es).changes), now)
    ensures exists later :: StillTrails(start, remote, h, now, OfferAll(before, es).rep, later)
  {
    var r, changed := OfferAll(before, es).rep, PathsOf(OfferAll(before, es).changes);
    var later := Mixed(was.nodes.Keys, shown, r.entries, changed);
    OffersAhead(before, es);
    StillPassed(before, es, shown);
    MixedPassed(was.nodes.Keys, shown, changed, r);
    MixedReached(was.nodes.Keys, start, remote, was, shown, changed, done + es, r);
    forall k | k in now.nodes && k !in was.nodes ensures OnTheWay(start.rep, remote, k) {
      TouchedOnTheWay(start, remote, before, es, done, k);
    }
    assert StillTrails(start, remote, h, now, r, later);
  }

  /** The result and the state are what the specification says. */
  ghost predicate EndsAs(spec: BatchResult, r: Result<seq<Change>>, view: Replica) {
    && view == spec.log.rep
    && r == match spec.failed case None => Ok(spec.log.changes) case Some(e) => Err(e)
  }

  lemma NoEntries(batch: seq<Fetched>, done: seq<Entry>)
    requires batch == []
    ensures EntriesIn(batch) == [] && done + EntriesIn(batch) == done
  {
  }

  lemma PartsFromPeer(remote: Remote, want: seq<Entry>, net: Outside)
    requires FromPeer(remote, want)
    ensures FromPeer(remote, EntriesIn(Fetches(net, Others(want), false)))
    ensures FromPeer(remote, EntriesIn(Fetches(net, Arrived(net.arrivals, Files(want)), true)))
  {
    FetchesEntries(net, Others(want), false);
    FetchesEntries(net, Arrived(net.arrivals, Files(want)), true);
  }

  lemma NodeFromPeer(remote: Remote, k: Text, net: Outside)
    requires IndexOk(remote.entries)
    ensures FromPeer(remote, NodeOffers(remote, k, net.arrivals))
  {
    NamedFromPeer(remote, k);
  }

  /** The last phase of `reconcile_entries`. */
  method ApplyDownloads(state: FolderState, remote: Remote, files: seq<Entry>, net: Outside, changes: seq<Change>,
                        ghost play: iset<Text>, ghost start: Start, ghost done: seq<Entry>)
    returns (r: Result<seq<Change>>)
    requires Walking(state, play, remote, start, done, changes)
    requires FromPeer(remote, EntriesIn(Fetches(net, Arrived(net.arrivals, files), true)))
    modifies state`lamport, state`entries, state`tree, state`liveTree
    ensures EndsAs(ApplyFiles(Log(old(state.View()), changes), files, net), r, state.View())
    ensures Tracks(state, remote, start) && (r.Ok? && start.current ==> state.Valid())
  {
    var batch :- Download(files, net);
    r := ApplyInWalk(state, remote, batch, changes, play, start, done);
  }

  /** The last two phases of `reconcile_entries`. */
  method ApplySelected(state: FolderState, remote: Remote, toApply: seq<Entry>, net: Outside, changes: seq<Change>,
                       ghost play: iset<Text>, ghost start: Start, ghost done: seq<Entry>)
    returns (r: Result<seq<Change>>)
    requires Walking(state, play, remote, start, done, changes) && FromPeer(remote, toApply)
    modifies state`lamport, state`entries, state`tree, state`liveTree
    ensures EndsAs(ApplyWanted(Log(old(state.View()), changes), toApply, net), r, state.View())
    ensures Tracks(state, remote, start) && (r.Ok? && start.current ==> state.Valid())
  {
    PartsFromPeer(remote, toApply, net);
    var parts :- Partition(toApply, net);
    var first :- ApplyInWalk(state, remote, parts.0, changes, play, start, done);
    r := ApplyDownloads(state, remote, parts.1, net, first, play, start, done + EntriesIn(parts.0));
  }

  lemma WalkedOn(remote: Remote, start: Replica, done: seq<Entry>, es: seq<Entry>, before: Log, after: Log)
    requires FromPeer(remote, done) && FromPeer(remote, es)
    requires before == OfferAll(Log(start, []), done) && after == OfferAll(before, es)
    ensures FromPeer(remote, done + es) && after == OfferAll(Log(start, []), done + es)
  {
    OfferAppend(Log(start, []), done, es);
  }

  /** `reconcile_entries`. The peer answers truthfully, so nothing it says is refused. */
  method ReconcileEntries(state: FolderState, remote: Remote, prefix: Text, localNode: Option<TreeNode>,
                          remoteNode: TreeNode, net: Outside, changes: seq<Change>,
                          ghost play: iset<Text>, ghost start: Start, ghost done: seq<Entry>)
    returns (r: Result<seq<Change>>)
    requires Walking(state, play, remote, start, done, changes)
    requires prefix in remote.tree.nodes && remoteNode == remote.tree.nodes[prefix] && localNode == state.Node(prefix)
    modifies state`lamport, state`entries, state`tree, state`liveTree
    ensures EndsAs(VisitNode(Log(old(state.View()), changes), remote, prefix, net), r, state.View())
    ensures Tracks(state, remote, start)
    ensures r.Ok? ==> Walking(state, play, remote, start, done + NodeOffers(remote, prefix, net.arrivals), r.value)
  {
    ghost var shown := WalkingShown(state, play, remote, start, done, changes);
    AnswerIsTrue(state.hash, remote, prefix);
    NormalizeDisplay(prefix);
    var all := GetEntries(remote, prefix);
    var selected := SelectEntries(state, remote, prefix, localNode, remoteNode, all, play, shown);
    ghost var before := Log(state.View(), changes);
    NamedFromPeer(remote, prefix);
    r := ApplySelected(state, remote, selected.value, net, changes, play, start, done);
    if r.Ok? {
      VisitOffers(before, remote, prefix, net);
      NodeFromPeer(remote, prefix, net);
      WalkedOn(remote, start.rep, done, NodeOffers(remote, prefix, net.arrivals), before, Log(state.View(), r.value));
    }
  }

  // ---------- the stack ----------

  /** A prefix to visit, with the hash the peer has there. */
  datatype Todo = Todo(prefix: Text, hash: Digest)

  function Prefixes(stack: seq<Todo>): (ps: seq<Text>)
    ensures |ps| == |stack| && forall i :: 0 <= i < |ps| ==> ps[i] == stack[i].prefix
  {
    seq(|stack|, i requires 0 <= i < |stack| => stack[i].prefix)
  }

  ghost predicate TodoOk(remote: Remote, t: Todo) {
    t.prefix in remote.tree.nodes && remote.tree.nodes[t.prefix].hash == t.hash
  }

  ghost predicate StackOk(remote: Remote, stack: seq<Todo>) {
    forall i :: 0 <= i < |stack| ==> TodoOk(remote, stack[i])
  }

  /** The children of a node whose hash differs from the local one, in name order. */
  function Changed(prefix: Text, localNode: Option<TreeNode>, remoteNode: TreeNode, names: seq<Text>): (r: seq<Todo>)
    requires forall n :: n in names ==> n in remoteNode.children
  {
    if names == [] then [] else
      var rest := Changed(prefix, localNode, remoteNode, names[1..]);
      if localNode.Some? && names[0] in localNode.value.children
         && localNode.value.children[names[0]] == remoteNode.children[names[0]]
      then rest
      else [Todo(Join(prefix, names[0]), remoteNode.children[names[0]])] + rest
  }

  lemma ChangedStep(prefix: Text, localNode: Option<TreeNode>, remoteNode: TreeNode, names: seq<Text>, out: seq<Todo>,
                    one: Todo)
    requires names != [] && (forall n :: n in names ==> n in remoteNode.children)
    requires one == Todo(Join(prefix, names[0]), remoteNode.children[names[0]])
    ensures out + Changed(prefix, localNode, remoteNode, names) ==
      (if localNode.Some? && names[0] in localNode.value.children
          && localNode.value.children[names[0]] == remoteNode.children[names[0]]
       then out else out + [one]) + Changed(prefix, localNode, remoteNode, names[1..])
  {
    var rest := Changed(prefix, localNode, remoteNode, names[1..]);
    assert out + ([one] + rest) == (out + [one]) + rest;
  }

  /** `queue_changed_children`. */
  method QueueChangedChildren(prefix: Text, localNode: Option<TreeNode>, remoteNode: TreeNode, stack: seq<Todo>)
    returns (out: seq<Todo>)
    ensures out == stack + Changed(prefix, localNode, remoteNode, Sorted(remoteNode.children.Keys))
  {
    out := stack;
    var names := Sorted(remoteNode.children.Keys);
    ghost var whole := out + Changed(prefix, localNode, remoteNode, names);
    while names != []
      invariant forall n :: n in names ==> n in remoteNode.children
      invariant out + Changed(prefix, localNode, remoteNode, names) == whole
      decreases |names|
    {
      var one := Todo(Join(prefix, names[0]), remoteNode.children[names[0]]);
      ChangedStep(prefix, localNode, remoteNode, names, out, one);
      var same := localNode.Some? && names[0] in localNode.value.children
        && localNode.value.children[names[0]] == one.hash;
      if !same { out := out + [one]; }
      names := names[1..];
    }
    assert out + [] == out;
  }

  /** A local node with the peer's hash: everything the peer has below it is here already. */
  lemma SameSubtreeDone(h: Hasher, play: iset<Text>, remote: Remote, tree: TreeSnapshot, shown: Index, r: Replica,
                        c: Text)
    requires Comparable(h, play, remote.tree, remote.entries, tree, shown) && Passed(r, shown)
    requires c in remote.tree.nodes && c in tree.nodes && remote.tree.nodes[c].hash == tree.nodes[c].hash
    ensures SubtreeDone(r, remote, c)
  {
    forall p | p in remote.entries && AtOrUnder(Parent(p), c) ensures Dominates(r, remote.entries[p]) {
      SubtreeEntries(h, play, remote.tree, remote.entries, tree, shown, c, p);
    }
  }

  lemma SameChildDone(h: Hasher, play: iset<Text>, remote: Remote, tree: TreeSnapshot, shown: Index, r: Replica,
                      k: Text, name: Text)
    requires Comparable(h, play, remote.tree, remote.entries, tree, shown) && Passed(r, shown)
    requires k in remote.tree.nodes && k in tree.nodes
    requires name in remote.tree.nodes[k].children && name in tree.nodes[k].children
    requires tree.nodes[k].children[name] == remote.tree.nodes[k].children[name]
    ensures SubtreeDone(r, remote, Join(k, name))
  {
    assert NodeOk(h, remote.entries, remote.tree.nodes, k) && NodeOk(h, shown, tree.nodes, k);
    ChildName(remote.tree.nodes.Keys, k, name);
    ChildName(tree.nodes.Keys, k, name);
    SameSubtreeDone(h, play, remote, tree, shown, r, Join(k, name));
  }

  lemma ChildTodo(h: Hasher, remote: Remote, k: Text, name: Text)
    requires Consistent(h, remote.tree, remote.entries) && k in remote.tree.nodes
    requires name in remote.tree.nodes[k].children
    ensures TodoOk(remote, Todo(Join(k, name), remote.tree.nodes[k].children[name]))
  {
    assert NodeOk(h, remote.entries, remote.tree.nodes, k);
    ChildName(remote.tree.nodes.Keys, k, name);
  }

  lemma JoinedUncons(k: Text, names: seq<Text>)
    requires names != []
    ensures Joined(k, names)[0] == Join(k, names[0]) && Joined(k, names)[1..] == Joined(k, names[1..])
  {
  }

  lemma PrefixesCons(t: Todo, rest: seq<Todo>)
    ensures Prefixes([t] + rest)[0] == t.prefix && Prefixes([t] + rest)[1..] == Prefixes(rest)
  {
    assert Prefixes([t] + rest)[1..] == Prefixes(rest);
  }

  /** The children that are queued are all of them but those that are done. */
  lemma {:induction false} ChangedTrims(h: Hasher, play: iset<Text>, remote: Remote, tree: TreeSnapshot, shown: Index,
                                        r: Replica, later: Replica, k: Text, localNode: Option<TreeNode>,
                                        names: seq<Text>)
    requires Comparable(h, play, remote.tree, remote.entries, tree, shown) && Passed(r, shown) && Ahead(r, later)
    requires k in remote.tree.nodes && localNode == (if k in tree.nodes then Some(tree.nodes[k]) else None)
    requires forall n :: n in names ==> n in remote.tree.nodes[k].children
    ensures StackOk(remote, Changed(k, localNode, remote.tree.nodes[k], names))
    ensures Trims(later, remote, Joined(k, names), Prefixes(Changed(k, localNode, remote.tree.nodes[k], names)))
    decreases |names|
  {
    if names != [] {
      var node, rest := remote.tree.nodes[k], Changed(k, localNode, remote.tree.nodes[k], names[1..]);
      JoinedUncons(k, names);
      ChildTodo(h, remote, k, names[0]);
      ChangedTrims(h, play, remote, tree, shown, r, later, k, localNode, names[1..]);
      if localNode.Some? && names[0] in localNode.value.children
        && localNode.value.children[names[0]] == node.children[names[0]] {
        SameChildDone(h, play, remote, tree, shown, r, k, names[0]);
        SubtreeStaysDone(r, later, remote, Join(k, names[0]));
      } else {
        PrefixesCons(Todo(Join(k, names[0]), node.children[names[0]]), rest);
      }
    }
  }

  /** How the walk will end, with `stack` left. */
  ghost function Ending(l: Log, remote: Remote, stack: seq<Todo>, net: Outside): BatchResult
    requires CleanKeys(remote.entries.Keys) && CleanKeys(remote.tree.nodes.Keys) && StackOk(remote, stack)
  {
    VisitAll(l, remote, Pending(remote.tree.nodes.Keys, Prefixes(stack)), net)
  }

  ghost function Steps(remote: Remote, stack: seq<Todo>): nat
    requires CleanKeys(remote.tree.nodes.Keys) && StackOk(remote, stack)
  {
    |Pending(remote.tree.nodes.Keys, Prefixes(stack))|
  }

  lemma OneOk(remote: Remote, top: Todo)
    requires TodoOk(remote, top)
    ensures StackOk(remote, [top]) && Prefixes([top]) == [top.prefix] && top.prefix in remote.tree.nodes
  {
  }

  lemma StackAppend(remote: Remote, a: seq<Todo>, b: seq<Todo>)
    requires StackOk(remote, a) && StackOk(remote, b)
    ensures StackOk(remote, a + b) && AllKeys(remote.tree.nodes.Keys, Prefixes(a))
    ensures Prefixes(a + b) == Prefixes(a) + Prefixes(b)
  {
    forall i | 0 <= i < |a| ensures Prefixes(a)[i] in remote.tree.nodes { assert TodoOk(remote, a[i]); }
  }

  /** The top of the stack is skipped: nothing would happen there. */
  lemma SkipTop(h: Hasher, play: iset<Text>, remote: Remote, tree: TreeSnapshot, shown: Index, l: Log,
                stack: seq<Todo>, top: Todo, net: Outside)
    requires Comparable(h, play, remote.tree, remote.entries, tree, shown) && Passed(l.rep, shown) && RepOk(l.rep)
    requires StackOk(remote, stack) && TodoOk(remote, top)
    requires top.prefix in tree.nodes && tree.nodes[top.prefix].hash == top.hash
    ensures StackOk(remote, stack + [top])
    ensures Ending(l, remote, stack + [top], net) == Ending(l, remote, stack, net)
    ensures Steps(remote, stack) < Steps(remote, stack + [top])
  {
    SameSubtreeDone(h, play, remote, tree, shown, l.rep, top.prefix);
    OneOk(remote, top);
    StackAppend(remote, stack, [top]);
    DropSubtree(l, remote, Prefixes(stack), top.prefix, [], net);
    NothingAbove(Prefixes(stack), top.prefix);
  }

  lemma NothingAbove(ps: seq<Text>, k: Text)
    ensures ps + [] == ps && ps + [k] + [] == ps + [k]
  {
  }

  /** After the entries of a node have been applied, its changed children are all that
      matters of its children. */
  lemma QueuedTrims(h: Hasher, play: iset<Text>, remote: Remote, tree: TreeSnapshot, shown: Index, l: Log, k: Text,
                    es: seq<Entry>, localNode: Option<TreeNode>)
    requires Comparable(h, play, remote.tree, remote.entries, tree, shown) && Passed(l.rep, shown) && RepOk(l.rep)
    requires k in remote.tree.nodes && localNode == (if k in tree.nodes then Some(tree.nodes[k]) else None)
    ensures
      var queued := Changed(k, localNode, remote.tree.nodes[k], Sorted(remote.tree.nodes[k].children.Keys));
      && StackOk(remote, queued)
      && Trims(OfferAll(l, es).rep, remote, ChildPaths(remote.tree.nodes.Keys, k), Prefixes(queued))
  {
    OffersAhead(l, es);
    ChangedTrims(h, play, remote, tree, shown, l.rep, OfferAll(l, es).rep, k, localNode,
                 Sorted(remote.tree.nodes[k].children.Keys));
    NodeNames(h, remote, k);
  }

  /** The top of the stack has been visited, and its changed children queued. */
  lemma VisitedTop(remote: Remote, l: Log, m: Log, stack: seq<Todo>, top: Todo, queued: seq<Todo>, net: Outside)
    requires RepOk(m.rep) && IndexOk(remote.entries) && CleanKeys(remote.tree.nodes.Keys)
    requires StackOk(remote, stack) && TodoOk(remote, top) && StackOk(remote, queued)
    requires VisitNode(l, remote, top.prefix, net) == BatchResult(m, None)
    requires Trims(m.rep, remote, ChildPaths(remote.tree.nodes.Keys, top.prefix), Prefixes(queued))
    ensures StackOk(remote, stack + queued) && StackOk(remote, stack + [top])
    ensures Ending(m, remote, stack + queued, net) == Ending(l, remote, stack + [top], net)
    ensures Steps(remote, stack + queued) < Steps(remote, stack + [top])
  {
    OneOk(remote, top);
    StackAppend(remote, stack, queued);
    StackAppend(remote, stack, [top]);
    VisitedPrefix(l, m, remote, Prefixes(stack), top.prefix, Prefixes(queued), net);
  }

  /** The top of the stack could not be visited. */
  lemma FailedTop(remote: Remote, l: Log, stack: seq<Todo>, top: Todo, net: Outside)
    requires CleanKeys(remote.entries.Keys) && CleanKeys(remote.tree.nodes.Keys)
    requires StackOk(remote, stack) && TodoOk(remote, top) && VisitNode(l, remote, top.prefix, net).failed.Some?
    ensures StackOk(remote, stack + [top])
    ensures Ending(l, remote, stack + [top], net) == VisitNode(l, remote, top.prefix, net)
  {
    OneOk(remote, top);
    StackAppend(remote, stack, [top]);
    VisitFailed(l, remote, Prefixes(stack), top.prefix, net);
  }

  // ---------- the walk ----------

  datatype Progress = Progress(changes: seq<Change>, stack: seq<Todo>)

  /** One step leads to the same end, or ends there with its error. */
  ghost predicate OnCourse(goal: BatchResult, remote: Remote, net: Outside, r: Result<Progress>, view: Replica)
    requires CleanKeys(remote.entries.Keys) && CleanKeys(remote.tree.nodes.Keys)
  {
    match r
    case Ok(p) => StackOk(remote, p.stack) && Ending(Log(view, p.changes), remote, p.stack, net) == goal
    case Err(e) => goal.failed == Some(e) && goal.log.rep == view
  }

  /** `reconcile_node`. With a truthful peer the node fetched is the peer's, so that nothing
      but its entries can fail. */
  method ReconcileNode(state: FolderState, remote: Remote, hinted: map<Text, TreeNode>, top: Todo, stack: seq<Todo>,
                       net: Outside, changes: seq<Change>, ghost play: iset<Text>, ghost start: Start,
                       ghost done: seq<Entry>)
    returns (r: Result<Progress>, ghost after: seq<Entry>)
    requires Walking(state, play, remote, start, done, changes) && HintsOk(state.hash, play, hinted)
    requires TodoOk(remote, top) && StackOk(remote, stack) && StackOk(remote, stack + [top])
    modifies state`lamport, state`entries, state`tree, state`liveTree
    ensures OnCourse(Ending(Log(old(state.View()), changes), remote, stack + [top], net), remote, net, r, state.View())
    ensures Tracks(state, remote, start) && (r.Ok? ==> Walking(state, play, remote, start, after, r.value.changes))
    ensures r.Ok? ==> Steps(remote, r.value.stack) < Steps(remote, stack + [top])
  {
    after := done;
    ghost var shown := WalkingShown(state, play, remote, start, done, changes);
    NormalizeDisplay(top.prefix);
    ghost var before, tree := Log(state.View(), changes), state.tree;
    var localNode := state.Node(top.prefix);
    if localNode.Some? && localNode.value.hash == top.hash {
      SkipTop(state.hash, play, remote, tree, shown, before, stack, top, net);
      return Ok(Progress(changes, stack)), after;
    }
    var fetched := FetchNode(state.hash, remote, hinted, top.prefix, top.hash, play);
    var remoteNode := fetched.value;
    var applied := ReconcileEntries(state, remote, top.prefix, localNode, remoteNode, net, changes, play, start, done);
    if applied.Err? {
      FailedTop(remote, before, stack, top, net);
      return Err(applied.error), after;
    }
    VisitOffers(before, remote, top.prefix, net);
    after := done + NodeOffers(remote, top.prefix, net.arrivals);
    var out := QueueChangedChildren(top.prefix, localNode, remoteNode, stack);
    QueuedTrims(state.hash, play, remote, tree, shown, before, top.prefix,
                NodeOffers(remote, top.prefix, net.arrivals), localNode);
    ghost var queued := Changed(top.prefix, localNode, remoteNode, Sorted(remoteNode.children.Keys));
    VisitedTop(remote, before, Log(state.View(), applied.value), stack, top, queued, net);
    return Ok(Progress(applied.value, out)), after;
  }

  // ---------- the sweep ----------

  /** The paths whose new entry is a tombstone, in the order of the changes. */
  /** A tombstone was stored at `p`. */
  ghost predicate Buried(changes: seq<Change>, p: Text) {
    exists i :: 0 <= i < |changes| && changes[i].path == p && changes[i].next.kind == Tombstone
  }

  function Tombstoned(changes: seq<Change>): (ps: seq<Text>)
    ensures forall p :: p in ps <==> Buried(changes, p)
  {
    if changes == [] then []
    else if changes[0].next.kind == Tombstone then [changes[0].path] + Tombstoned(changes[1..])
    else Tombstoned(changes[1..])
  }

  function Probes(net: Outside, ps: seq<Text>): (evs: seq<Event>)
    ensures |evs| == |ps| && forall i :: 0 <= i < |evs| ==> evs[i] == net.probe(ps[i])
  {
    seq(|ps|, i requires 0 <= i < |ps| => net.probe(ps[i]))
  }

  /** Where a walk ends: after all offers, the disk is looked at again wherever a tombstone
      was stored. These last changes are not reported. */
  ghost function Swept(t: Log, net: Outside): Replica {
    ApplyAll(Log(t.rep, []), Probes(net, Tombstoned(t.changes)), net.rules, net.scan).rep
  }

  lemma {:induction false} OffersLogged(l: Log, es: seq<Entry>)
    requires RepOk(l.rep)
    ensures Logged(l, OfferAll(l, es))
    decreases |es|
  {
    if es != [] {
      OfferOk(l, es[0]);
      OfferLogged(l, es[0]);
      OffersLogged(Offer(l, es[0]), es[1..]);
      LoggedTransitive(l, Offer(l, es[0]), OfferAll(l, es));
    }
  }

  lemma ProbesOk(remote: Remote, start: Replica, es: seq<Entry>, net: Outside)
    requires RepOk(start) && OutsideOk(remote, net)
    ensures forall ev :: ev in Probes(net, Tombstoned(OfferAll(Log(start, []), es).changes)) ==> EventOk(ev)
  {
    OffersLogged(Log(start, []), es);
    var changes := OfferAll(Log(start, []), es).changes;
    var ps := Tombstoned(changes);
    forall i | 0 <= i < |ps| ensures EventOk(Probes(net, ps)[i]) {
      assert ps[i] in ps;
      var k :| 0 <= k < |changes| && changes[k].path == ps[i];
    }
  }

  /** What the walk has achieved survives the sweep. */
  lemma SweptDominates(h: Hasher, remote: Remote, start: Replica, net: Outside, p: Text)
    requires RepOk(start) && OutsideOk(remote, net) && Consistent(h, remote.tree, remote.entries) && p in remote.entries
    ensures Dominates(Swept(OfferAll(Log(start, []), Everything(remote, net.arrivals)), net), remote.entries[p])
  {
    var es := Everything(remote, net.arrivals);
    var t := OfferAll(Log(start, []), es);
    EverythingListed(h, remote, net.arrivals);
    OfferAllDominates(Log(start, []), es, remote.entries[p]);
    OfferAllNotOlder(Log(start, []), es, []);
    ProbesOk(remote, start, es, net);
    var evs := Probes(net, Tombstoned(t.changes));
    AllGrows(Log(t.rep, []), evs, net.rules, net.scan);
    GrowsNotOlder(Log(t.rep, []), ApplyAll(Log(t.rep, []), evs, net.rules, net.scan), remote.entries[p].path);
    DominationKept(t.rep, Swept(t, net), remote.entries[p]);
  }

  lemma NothingToSweep(r: Replica, changes: seq<Change>, net: Outside)
    requires Tombstoned(changes) == []
    ensures Swept(Log(r, changes), net) == r
  {
    assert Probes(net, []) == [];
  }

  lemma NothingSwept(r: Replica, net: Outside)
    ensures Swept(Log(r, []), net) == r
  {
    var none: seq<Change> := [];
    assert Tombstoned(none) == [];
    NothingToSweep(r, none, net);
  }

  // ---------- the whole ----------

  /** The naive pull from a peer: every node, in the order of a walk that skips nothing. */
  ghost function NaivePull(l: Log, remote: Remote, net: Outside): BatchResult
    requires CleanKeys(remote.entries.Keys) && CleanKeys(remote.tree.nodes.Keys) && [] in remote.tree.nodes
  {
    VisitAll(l, remote, Preorder(remote.tree.nodes.Keys, []), net)
  }

  /** If it succeeds, everything the peer has was offered; if it fails, something the peer has
      could not be applied, for the reason the error tells. Either way only entries of the peer
      have been offered that can be applied. */
  lemma NaivePullMeans(h: Hasher, remote: Remote, start: Replica, net: Outside)
    requires RepOk(start) && Consistent(h, remote.tree, remote.entries)
    ensures
      var pull := NaivePull(Log(start, []), remote, net);
      && (pull.failed.None? ==> pull.log == OfferAll(Log(start, []), Everything(remote, net.arrivals)))
      && (pull.failed.Some? ==> exists p :: p in remote.entries && Stops(net, remote.entries[p], pull.failed.value))
      && exists done :: FromPeer(remote, done) && Free(net, done) && pull.log == OfferAll(Log(start, []), done)
  {
    var order := Preorder(remote.tree.nodes.Keys, []);
    var done := VisitAllSome(Log(start, []), remote, order, net);
    if NaivePull(Log(start, []), remote, net).failed.None? {
      VisitAllOffers(Log(start, []), remote, order, net);
    } else {
      var p := VisitAllObstacle(Log(start, []), remote, order, net);
    }
  }

  /** After a successful pull and the sweep, everything the peer has is dominated. */
  lemma NaivePullDominates(h: Hasher, remote: Remote, start: Replica, net: Outside)
    requires RepOk(start) && OutsideOk(remote, net) && Consistent(h, remote.tree, remote.entries)
    requires NaivePull(Log(start, []), remote, net).failed.None?
    ensures AllDominated(Swept(NaivePull(Log(start, []), remote, net).log, net), remote)
  {
    NaivePullMeans(h, remote, start, net);
    var end := Swept(NaivePull(Log(start, []), remote, net).log, net);
    forall p | p in remote.entries ensures Dominates(end, remote.entries[p]) {
      SweptDominates(h, remote, start, net, p);
    }
  }

  ghost predicate AllDominated(r: Replica, remote: Remote) {
    forall p :: p in remote.entries ==> Dominates(r, remote.entries[p])
  }

  lemma RootIsEverything(h: Hasher, remote: Remote, l: Log, net: Outside)
    requires Consistent(h, remote.tree, remote.entries)
    ensures TodoOk(remote, Todo([], remote.tree.rootHash)) && StackOk(remote, [Todo([], remote.tree.rootHash)])
    ensures Ending(l, remote, [Todo([], remote.tree.rootHash)], net) == NaivePull(l, remote, net)
  {
    OneOk(remote, Todo([], remote.tree.rootHash));
    PendingOne(remote.tree.nodes.Keys, []);
  }

  lemma NothingAhead(remote: Remote, l: Log, net: Outside)
    requires CleanKeys(remote.entries.Keys) && CleanKeys(remote.tree.nodes.Keys)
    ensures Ending(l, remote, [], net) == BatchResult(l, None)
  {
    var none: seq<Todo> := [];
    assert Prefixes(none) == [];
  }

  lemma TakeTop(remote: Remote, stack: seq<Todo>)
    requires stack != [] && StackOk(remote, stack)
    ensures stack == stack[..|stack| - 1] + [stack[|stack| - 1]]
    ensures TodoOk(remote, stack[|stack| - 1]) && StackOk(remote, stack[..|stack| - 1])
  {
  }

  /** A walk can start in this state, with a tree that describes `shown`. */
  ghost predicate Begins(state: FolderState, play: iset<Text>, remote: Remote, start: Start)
    reads state
  {
    && state.Sound() && start.rep == state.View() && Trails(state.hash, state.tree, start.rep, start.shown)
    && start.nodes == state.tree.nodes.Keys && (start.current ==> state.Valid())
    && InReach(state.hash, play, start, remote)
  }

  lemma BeginsWalking(state: FolderState, play: iset<Text>, remote: Remote, start: Start)
    requires Begins(state, play, remote, start)
    ensures Walking(state, play, remote, start, [], [])
  {
    assert StillTrails(start, remote, state.hash, state.tree, state.View(), start.shown);
  }

  /** The loop of `reconcile_with_advertised_root`. */
  method Walk(state: FolderState, remote: Remote, hinted: map<Text, TreeNode>, net: Outside, ghost play: iset<Text>,
              ghost start: Start)
    returns (r: Result<seq<Change>>)
    requires Begins(state, play, remote, start) && HintsOk(state.hash, play, hinted)
    modifies state`lamport, state`entries, state`tree, state`liveTree
    ensures EndsAs(NaivePull(Log(old(state.View()), []), remote, net), r, state.View())
    ensures Tracks(state, remote, start) && (r.Ok? && start.current ==> state.Valid())
  {
    ghost var done: seq<Entry> := [];
    var changes: seq<Change>, stack := [], [Todo([], remote.tree.rootHash)];
    RootIsEverything(state.hash, remote, Log(start.rep, []), net);
    BeginsWalking(state, play, remote, start);
    ghost var goal := NaivePull(Log(start.rep, []), remote, net);
    while stack != []
      invariant Walking(state, play, remote, start, done, changes) && StackOk(remote, stack)
      invariant Ending(Log(state.View(), changes), remote, stack, net) == goal
      decreases Steps(remote, stack)
    {
      var top, rest := stack[|stack| - 1], stack[..|stack| - 1];
      TakeTop(remote, stack);
      var step: Progress;
      step, done :- ReconcileNode(state, remote, hinted, top, rest, net, changes, play, start, done);
      changes, stack := step.changes, step.stack;
    }
    NothingAhead(remote, Log(state.View(), changes), net);
    return Ok(changes);
  }

  /** If the roots agree, everything the peer has is here already. */
  lemma SameRootDone(h: Hasher, play: iset<Text>, remote: Remote, tree: TreeSnapshot, shown: Index, r: Replica,
                     net: Outside)
    requires Comparable(h, play, remote.tree, remote.entries, tree, shown) && Passed(r, shown) && RepOk(r)
    requires tree.rootHash == remote.tree.rootHash
    ensures NaivePull(Log(r, []), remote, net) == BatchResult(Log(r, []), None)
    ensures Swept(Log(r, []), net) == r
  {
    var top := Todo([], remote.tree.rootHash);
    RootIsEverything(h, remote, Log(r, []), net);
    assert [] + [top] == [top];
    SkipTop(h, play, remote, tree, shown, Log(r, []), [], top, net);
    NothingAhead(remote, Log(r, []), net);
    NothingSwept(r, net);
  }

  /** Local changes leave the replica ahead of what the tree shows, before and after its
      update. */
  lemma SweptTrails(h: Hasher, was: TreeSnapshot, now: TreeSnapshot, a: Log, b: Log, shown: Index, changed: seq<Text>)
    requires RepOk(a.rep) && RepOk(b.rep) && Grows(a, b) && Trails(h, was, a.rep, shown)
    requires MixedTree(h, was, shown, b.rep.entries, changed, now)
    ensures exists later :: Trails(h, now, b.rep, later)
  {
    forall p | p in shown ensures Dominates(b.rep, shown[p]) {
      GrowsNotOlder(a, b, shown[p].path);
      DominationKept(a.rep, b.rep, shown[p]);
    }
    MixedPassed(was.nodes.Keys, shown, changed, b.rep);
    assert Trails(h, now, b.rep, Mixed(was.nodes.Keys, shown, b.rep.entries, changed));
  }

  lemma ValidTrails(state: FolderState)
    requires state.Valid()
    ensures Trails(state.hash, state.tree, state.View(), state.entries)
  {
  }

  /** The sweep after a walk, if that has stored tombstones. */
  method Sweep(state: FolderState, remote: Remote, walked: seq<Change>, net: Outside, ghost start: Start)
    requires Tracks(state, remote, start) && IndexOk(net.scan.found)
    requires forall ev :: ev in Probes(net, Tombstoned(walked)) ==> EventOk(ev)
    modifies state`lamport, state`entries, state`tree, state`liveTree
    ensures state.View() == Swept(Log(old(state.View()), walked), net)
    ensures state.Sound() && (old(state.Valid()) ==> state.Valid())
    ensures exists shown :: Trails(state.hash, state.tree, state.View(), shown)
  {
    ghost var shown :| StillTrails(start, remote, state.hash, state.tree, state.View(), shown);
    ghost var before, tree := Log(state.View(), []), state.tree;
    var tombstoned := Tombstoned(walked);
    if tombstoned == [] {
      NothingToSweep(state.View(), walked, net);
      assert Trails(state.hash, state.tree, state.View(), shown);
      return;
    }
    var evs := Probes(net, tombstoned);
    var swept := state.ApplyPaths(evs, net.rules, net.scan);
    AllGrows(before, evs, net.rules, net.scan);
    if RulesTouched(evs) {
      ValidTrails(state);
    } else {
      SweptTrails(state.hash, tree, state.tree, before, Log(state.View(), swept), shown, PathsOf(swept));
    }
  }

  /** The body of `reconcile_with_advertised_root`. */
  method WalkAndSweep(state: FolderState, remote: Remote, hints: seq<TreeNode>, net: Outside, ghost play: iset<Text>,
                      ghost start: Start)
    returns (r: Result<seq<Change>>)
    requires Begins(state, play, remote, start) && OutsideOk(remote, net)
    requires forall n :: n in hints ==> NodeSized(n) && NodeInPlay(play, n)
    modifies state`lamport, state`entries, state`tree, state`liveTree
    ensures SweptAs(NaivePull(Log(old(state.View()), []), remote, net), net, r, state.View())
    ensures state.Sound() && exists shown :: Trails(state.hash, state.tree, state.View(), shown)
    ensures r.Ok? && start.current ==> state.Valid()
  {
    if state.tree.rootHash == remote.tree.rootHash {
      BeginsWalking(state, play, remote, start);
      ghost var shown := WalkingShown(state, play, remote, start, [], []);
      SameRootDone(state.hash, play, remote, state.tree, shown, start.rep, net);
      return Ok([]);
    }
    var hinted := HintedNodes(state.hash, hints);
    var walked :- Walk(state, remote, hinted, net, play, start);
    WalkProbesOk(state.hash, remote, start.rep, net);
    Sweep(state, remote, walked, net, start);
    return Ok(walked);
  }

  /** Result and state are those of the naive pull, followed by the sweep if it succeeds. */
  ghost predicate SweptAs(pull: BatchResult, net: Outside, r: Result<seq<Change>>, view: Replica) {
    match pull.failed
    case None => r == Ok(pull.log.changes) && view == Swept(pull.log, net)
    case Some(e) => r == Err(e) && view == pull.log.rep
  }

  lemma WalkProbesOk(h: Hasher, remote: Remote, start: Replica, net: Outside)
    requires RepOk(start) && OutsideOk(remote, net) && Consistent(h, remote.tree, remote.entries)
    requires NaivePull(Log(start, []), remote, net).failed.None?
    ensures forall ev :: ev in Probes(net, Tombstoned(NaivePull(Log(start, []), remote, net).log.changes)) ==>
      EventOk(ev)
  {
    NaivePullMeans(h, remote, start, net);
    ProbesOk(remote, start, Everything(remote, net.arrivals), net);
  }

  /** `reconcile_with_advertised_root`, against a peer that stays at the advertised root. Result
      and state are those of the naive pull, followed by the sweep if it succeeds, whatever the
      hints are; so success does not depend on them either. After a success everything the peer
      has is dominated; a failure is due to an entry of the peer's that cannot be applied. The
      tree may have been left behind: all it takes is that it describes an index the replica
      has passed, and that still holds afterwards, also after a failure. */
  method ReconcileWithAdvertisedRoot(state: FolderState, remote: Remote, hints: seq<TreeNode>, net: Outside,
                                     ghost play: iset<Text>, ghost start: Start)
    returns (r: Result<seq<Change>>)
    requires Begins(state, play, remote, start) && OutsideOk(remote, net)
    requires forall n :: n in hints ==> NodeSized(n) && NodeInPlay(play, n)
    modifies state`lamport, state`entries, state`tree, state`liveTree
    ensures SweptAs(NaivePull(Log(old(state.View()), []), remote, net), net, r, state.View())
    ensures r.Ok? ==> AllDominated(state.View(), remote)
    ensures r.Err? ==> exists p :: p in remote.entries && Stops(net, remote.entries[p], r.error)
    ensures state.Sound() && exists shown :: Trails(state.hash, state.tree, state.View(), shown)
    ensures r.Ok? && start.current ==> state.Valid()
  {
    r := WalkAndSweep(state, remote, hints, net, play, start);
    if r.Ok? {
      NaivePullDominates(state.hash, remote, start.rep, net);
    } else {
      NaivePullMeans(state.hash, remote, start.rep, net);
    }
  }

  /** A state whose trees describe its index is a start. */
  lemma ValidBegins(state: FolderState, play: iset<Text>, remote: Remote, start: Start)
    requires state.Valid() && start == Start(state.View(), state.entries, state.tree.nodes.Keys, true)
    requires InReach(state.hash, play, start, remote)
    ensures Begins(state, play, remote, start)
  {
    ValidTrails(state);
  }
}
