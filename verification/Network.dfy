/** The whole group as a transition system. Nodes change their own folder, pull batches of
    entries from each other, announce their root and watermark, receive announcements late,
    repeatedly and out of order, and collect tombstones when the root reports they happen to
    hold all match. A batch may fail part of the way, which stores what came before and
    leaves the tree as it was; later updates bring such a tree up to date only where they
    touch it. Membership is fixed, nodes do not restart, and each batch is taken from the
    peer's current index. */
module Network {
  import opened Bytes
  import opened Paths
  import opened Entries
  import opened Tree
  import opened TreeUpdate
  import opened Ignore
  import opened Replicas
  import opened ReplicaFacts
  import opened FolderStates
  import opened Daemons

  datatype Peer = Peer(rep: Replica, tree: TreeSnapshot, reports: Reports)

  /** The last four are history variables: every entry ever written by its own node, and for
      each node the newest entry it ever held at a path, the index its tree describes, and
      its own writes that the tree does not show yet. Only `shown` enters a step, as what the
      new tree has to describe. */
  datatype World = World(
    peers: map<Text, Peer>,
    sent: set<Announcement>,
    issued: set<Entry>,
    newest: map<Text, Index>,
    shown: map<Text, Index>,
    hidden: map<Text, set<Entry>>)

  datatype Action =
    | Local(node: Text, evs: seq<Event>, rules: seq<Rule>)
    | FullScan(node: Text, scan: Scan)
    | Pull(node: Text, from: Text, batch: seq<Fetched>)
    | Announce(node: Text, message: Announcement)
    | Deliver(node: Text, message: Announcement)
    | Collect(node: Text)

  /** What one call of `apply_remote_entries` gets: entries of one directory of the peer, either
      the files, downloaded, or all others, in name order. */
  ghost predicate IsBatch(idx: Index, batch: seq<Fetched>) {
    && (forall f :: f in batch ==>
          f.entry.path in idx && idx[f.entry.path] == f.entry && (f.hasTmp <==> f.entry.kind == File))
    && (forall k, l :: 0 <= k < l < |batch| ==>
          && Parent(batch[k].entry.path) == Parent(batch[l].entry.path)
          && batch[k].hasTmp == batch[l].hasTmp
          && (!batch[k].hasTmp ==> Le(batch[k].entry.path, batch[l].entry.path)))
  }

  /** What the action does to the index of its node, with the entries it writes. */
  ghost function Effect(w: World, a: Action): Log
    requires a.node in w.peers
  {
    var start := Log(w.peers[a.node].rep, []);
    match a
    case Local(_, evs, rules) => ApplyEvents(start, evs, rules)
    case FullScan(_, scan) => Rescan(start, scan)
    case Pull(_, _, batch) => ApplyBatch(start, batch).log
    case Deliver(_, m) => Log(Absorb(start.rep, m.watermark), [])
    case _ => start
  }

  /** The action is a batch that fails. */
  ghost predicate Fails(w: World, a: Action)
    requires a.node in w.peers
  {
    a.Pull? && ApplyBatch(Log(w.peers[a.node].rep, []), a.batch).failed.Some?
  }

  ghost predicate Enabled(w: World, a: Action) {
    && a.node in w.peers
    && match a
       case Local(_, evs, _) => forall ev :: ev in evs ==> EventOk(ev)
       case FullScan(_, scan) => IndexOk(scan.found)
       case Pull(i, j, batch) => j in w.peers && j != i && IsBatch(w.peers[j].rep.entries, batch)
       case Announce(i, m) =>
         && m.origin == i && m.stateRoot == w.peers[i].tree.rootHash && m.lamport == w.peers[i].rep.lamport
         && (m.watermark == w.peers[i].rep.watermark || m.watermark == map[])
       case Deliver(i, m) => m in w.sent && m.origin != i
       case Collect(_) => true
  }

  /** The root reports the node holds all match its own root. */
  ghost predicate Agreed(w: World, i: Text) {
    i in w.peers && AllMatch(w.peers[i].reports, w.peers[i].tree.rootHash, w.peers.Keys - {i})
  }

  /** The replica of the acting node afterwards. */
  ghost predicate RepStep(w: World, a: Action, r: Replica)
    requires Enabled(w, a)
  {
    if a.Collect? && Agreed(w, a.node) then Collects(w.peers[a.node].rep, r) else r == Effect(w, a).rep
  }

  function NextEntries(changes: seq<Change>): set<Entry> {
    set c | c in changes :: c.next
  }

  /** `e` or something newer is in the index. */
  ghost predicate Shows(idx: Index, e: Entry) {
    e.path in idx && e.version.AtMost(idx[e.path].version)
  }

  /** The tree is derived anew: by a rescan, and by a merge or a collection that removes
      something from the index. */
  ghost predicate Rebuilds(w: World, a: Action, after: Index)
    requires a.node in w.peers
  {
    a.FullScan? || ((a.Deliver? || a.Collect?) && after != w.peers[a.node].rep.entries)
  }

  /** The tree is updated for the paths that changed: by a local change and by a batch that
      succeeds. */
  ghost predicate Updates(w: World, a: Action)
    requires a.node in w.peers
  {
    a.Local? || (a.Pull? && !Fails(w, a))
  }

  /** What the tree of the acting node shows afterwards. */
  ghost function ShownAfter(w: World, a: Action, after: Index): Index
    requires a.node in w.peers && a.node in w.shown
  {
    if Rebuilds(w, a, after) then after
    else if Updates(w, a)
    then Mixed(w.peers[a.node].tree.nodes.Keys, w.shown[a.node], after, PathsOf(Effect(w, a).changes))
    else w.shown[a.node]
  }

  /** Those of the entries that node `k` wrote after clock `n`. */
  ghost function WrittenBy(k: Text, n: nat, es: set<Entry>): set<Entry> {
    set e | e in es && e.version.origin == k && n < e.version.lamport
  }

  /** What the acting node writes itself: in a pull, the tombstones for what it buries. */
  ghost function Burials(w: World, a: Action): set<Entry>
    requires a.node in w.peers
  {
    WrittenBy(a.node, w.peers[a.node].rep.lamport, NextEntries(Effect(w, a).changes))
  }

  /** What its tree does not show yet of the acting node's own writes: what it buried in a
      batch that failed, until an update shows it or the tree is derived anew. */
  ghost function HiddenAfter(w: World, a: Action, after: Index): set<Entry>
    requires a.node in w.peers && a.node in w.shown && a.node in w.hidden
  {
    if Rebuilds(w, a, after) then {}
    else if Fails(w, a) then w.hidden[a.node] + Burials(w, a)
    else set e | e in w.hidden[a.node] && !Shows(ShownAfter(w, a, after), e)
  }

  /** The tree may be any snapshot of what it shows, so that both the derived and the updated
      ones are covered; `play` holds every string hashed for it. */
  ghost predicate Showing(h: Hasher, play: iset<Text>, w: World, i: Text)
    requires i in w.peers && i in w.shown
  {
    Consistent(h, w.peers[i].tree, w.shown[i]) && InPlay(play, w.peers[i].tree, w.shown[i])
  }

  ghost predicate TreeStep(h: Hasher, play: iset<Text>, w: World, a: Action, v: World)
    requires a.node in w.peers && a.node in v.peers
  {
    && w.shown.Keys == w.hidden.Keys == w.peers.Keys
    && v.shown == w.shown[a.node := ShownAfter(w, a, v.peers[a.node].rep.entries)]
    && v.hidden == w.hidden[a.node := HiddenAfter(w, a, v.peers[a.node].rep.entries)]
    && Showing(h, play, v, a.node)
    && (Fails(w, a) || a.Announce? ==> v.peers[a.node].tree == w.peers[a.node].tree)
  }

  function Heard(reports: Reports, m: Announcement): Reports {
    Record(reports, m.origin, RootReport(m.stateRoot, m.lamport))
  }

  /** One step. */
  ghost predicate Next(h: Hasher, play: iset<Text>, w: World, a: Action, v: World) {
    && Enabled(w, a)
    && var i := a.node;
    && v.peers.Keys == w.peers.Keys
    && (forall k :: k in w.peers && k != i ==> v.peers[k] == w.peers[k])
    && RepStep(w, a, v.peers[i].rep)
    && TreeStep(h, play, w, a, v)
    && v.peers[i].reports == (if a.Deliver? then Heard(w.peers[i].reports, a.message) else w.peers[i].reports)
    && v.sent == (if a.Announce? then w.sent + {a.message} else w.sent)
    && v.issued == w.issued + NextEntries(Effect(w, a).changes)
    && v.newest == w.newest[i := (if i in w.newest then w.newest[i] else map[]) + v.peers[i].rep.entries]
  }

  /** A group of nodes that have never held anything. */
  ghost predicate Init(h: Hasher, play: iset<Text>, w: World) {
    && w.sent == {} && w.issued == {} && w.newest.Keys == w.shown.Keys == w.hidden.Keys == w.peers.Keys
    && forall i :: i in w.peers ==>
         && w.peers[i].rep == Replica(i, 0, map[], map[])
         && w.peers[i].reports == map[] && w.newest[i] == map[] && w.shown[i] == map[] && w.hidden[i] == {}
         && Showing(h, play, w, i)
  }

  // ---------- what the safety of collection rests on ----------

  /** Some entry of the index was written by `k` at clock `n` or later. */
  ghost predicate Upto(idx: Index, k: Text, n: nat) {
    exists p :: p in idx && idx[p].version.origin == k && n <= idx[p].version.lamport
  }

  ghost predicate WroteItself(w: World, k: Text, e: Entry) {
    e in w.issued && e.version.origin == k
  }

  /** What the tree does not show of the node's own writes is later than all it does show. */
  ghost predicate Candid(w: World, k: Text)
    requires k in w.shown && k in w.hidden
  {
    forall e :: e in w.hidden[k] ==> !Upto(w.shown[k], k, e.version.lamport)
  }

  /** The tree shows every tombstone of the index. */
  ghost predicate GravesShown(w: World, i: Text)
    requires i in w.peers && i in w.shown
  {
    forall p :: p in w.peers[i].rep.entries && !Live(w.peers[i].rep.entries[p]) ==>
      p in w.shown[i] && w.shown[i][p] == w.peers[i].rep.entries[p]
  }

  /** The tree shows the index. */
  ghost predicate Fresh(w: World, i: Text)
    requires i in w.peers && i in w.shown
  {
    w.shown[i] == w.peers[i].rep.entries
  }

  /** An announcement, and a collection that removes something, are made with a candid tree;
      a collection also needs one that shows every tombstone. */
  ghost predicate Cautious(w: World, a: Action) {
    a.node in w.peers && a.node in w.shown && a.node in w.hidden ==>
      && (a.Announce? ==> Candid(w, a.node))
      && (a.Collect? && Agreed(w, a.node) ==> Candid(w, a.node) && GravesShown(w, a.node))
  }

  // ---------- the invariant ----------

  /** Node `k` holds, or held, `e` or something newer. */
  ghost predicate Knows(w: World, k: Text, e: Entry) {
    k in w.newest && Shows(w.newest[k], e)
  }

  ghost predicate Everyone(w: World, e: Entry) {
    forall k :: k in w.peers ==> Knows(w, k, e)
  }

  /** Whatever a watermark covers is known to every node. */
  ghost predicate Certified(w: World, m: Watermark) {
    && (forall o :: o in m ==> o in w.peers && m[o] <= w.peers[o].rep.lamport)
    && (forall e :: e in w.issued && Covered(m, e.version) ==> Everyone(w, e))
  }

  /** The index is the newest entry of each path, less the dead tombstones. */
  ghost predicate HistoryOf(w: World, i: Text)
    requires i in w.peers && i in w.newest
  {
    && (forall p :: p in w.peers[i].rep.entries ==> p in w.newest[i] && w.newest[i][p] == w.peers[i].rep.entries[p])
    && (forall p :: p in w.newest[i] ==>
          && w.newest[i][p] in w.issued && w.newest[i][p].path == p
          && w.newest[i][p].version.lamport <= w.peers[i].rep.lamport
          && (p !in w.peers[i].rep.entries ==> DeadTombstone(w.peers[i].rep.watermark, w.newest[i][p])))
  }

  /** No version is beyond its origin's clock, and none is used twice. */
  ghost predicate Stamped(w: World) {
    && (forall e :: e in w.issued ==>
          e.version.origin in w.peers && e.version.lamport <= w.peers[e.version.origin].rep.lamport)
    && (forall e, f :: e in w.issued && f in w.issued && e.version == f.version ==> e == f)
  }

  ghost predicate IssuedOk(w: World) {
    Stamped(w) && forall e :: e in w.issued ==> Knows(w, e.version.origin, e)
  }

  /** An index that node `k` showed when it reported `root`. */
  ghost predicate Witness(h: Hasher, play: iset<Text>, w: World, k: Text, root: Digest, idx: Index, t: TreeSnapshot) {
    && k in w.peers && Consistent(h, t, idx) && InPlay(play, t, idx) && t.rootHash == root
    && (forall p :: p in idx ==> idx[p] in w.issued && Knows(w, k, idx[p]))
    && (forall e :: WroteItself(w, k, e) && Upto(idx, k, e.version.lamport) ==> Reflected(w, idx, e))
  }

  /** `e` or something newer is in the index, or everyone knows of it. */
  ghost predicate Reflected(w: World, idx: Index, e: Entry) {
    Shows(idx, e) || Everyone(w, e)
  }

  ghost predicate ReportOk(h: Hasher, play: iset<Text>, w: World, k: Text, root: Digest) {
    exists idx, t :: Witness(h, play, w, k, root, idx, t)
  }

  ghost predicate ReportsOk(h: Hasher, play: iset<Text>, w: World) {
    && (forall m :: m in w.sent ==> Certified(w, m.watermark) && ReportOk(h, play, w, m.origin, m.stateRoot))
    && (forall i, k :: i in w.peers && k in w.peers[i].reports ==>
          ReportOk(h, play, w, k, w.peers[i].reports[k].stateRoot))
  }

  ghost predicate PeerOk(w: World, i: Text)
    requires i in w.peers && i in w.newest
  {
    && w.peers[i].rep.origin == i && RepOk(w.peers[i].rep)
    && HistoryOf(w, i)
    && Certified(w, w.peers[i].rep.watermark)
  }

  /** The tree shows what the node holds, or held. */
  ghost predicate ShownKnown(w: World, i: Text)
    requires i in w.shown
  {
    forall p :: p in w.shown[i] ==> w.shown[i][p] in w.issued && Knows(w, i, w.shown[i][p])
  }

  /** It shows all of the node's own writes but the hidden ones. */
  ghost predicate OwnShown(w: World, i: Text)
    requires i in w.shown && i in w.hidden
  {
    forall e :: WroteItself(w, i, e) ==> e in w.hidden[i] || Reflected(w, w.shown[i], e)
  }

  /** What is hidden the node has written, and holds. */
  ghost predicate HiddenHeld(w: World, i: Text)
    requires i in w.peers && i in w.shown && i in w.hidden
  {
    forall e :: e in w.hidden[i] ==>
      WroteItself(w, i, e) && !Shows(w.shown[i], e) && Shows(w.peers[i].rep.entries, e)
  }

  ghost predicate ShownOk(h: Hasher, play: iset<Text>, w: World, i: Text)
    requires i in w.peers && i in w.shown && i in w.hidden
  {
    Showing(h, play, w, i) && ShownKnown(w, i) && OwnShown(w, i) && HiddenHeld(w, i)
  }

  /** The part of the invariant that does not speak of trees and reports. */
  ghost predicate Core(w: World) {
    && w.newest.Keys == w.peers.Keys
    && (forall i {:trigger PeerOk(w, i)} :: i in w.peers ==> PeerOk(w, i))
    && IssuedOk(w)
  }

  ghost predicate TreesOk(h: Hasher, play: iset<Text>, w: World) {
    && w.shown.Keys == w.hidden.Keys == w.peers.Keys
    && forall i {:trigger ShownOk(h, play, w, i)} :: i in w.peers ==> ShownOk(h, play, w, i)
  }

  ghost predicate Inv(h: Hasher, play: iset<Text>, w: World) {
    Core(w) && TreesOk(h, play, w) && ReportsOk(h, play, w)
  }

  // ---------- what every step respects ----------

  /** Nothing known is forgotten, clocks do not go back, and new entries are stamped
      beyond their node's clock. */
  ghost predicate Advances(w: World, v: World) {
    && v.peers.Keys == w.peers.Keys && v.newest.Keys == w.newest.Keys
    && (forall k :: k in w.newest ==> forall p :: NotOlder(w.newest[k], v.newest[k], p))
    && (forall k :: k in w.peers ==> w.peers[k].rep.lamport <= v.peers[k].rep.lamport)
    && w.issued <= v.issued
    && (forall e :: e in v.issued && e !in w.issued ==>
          e.version.origin in w.peers && w.peers[e.version.origin].rep.lamport < e.version.lamport)
  }

  lemma KnowsKept(w: World, v: World, k: Text, e: Entry)
    requires Advances(w, v) && Knows(w, k, e)
    ensures Knows(v, k, e)
  {
    assert NotOlder(w.newest[k], v.newest[k], e.path);
    VersionTransitive(e.version, w.newest[k][e.path].version, v.newest[k][e.path].version);
  }

  lemma EveryoneKept(w: World, v: World, e: Entry)
    requires Advances(w, v) && Everyone(w, e)
    ensures Everyone(v, e)
  {
    forall k | k in v.peers ensures Knows(v, k, e) { KnowsKept(w, v, k, e); }
  }

  lemma CertifiedKept(w: World, v: World, m: Watermark)
    requires Advances(w, v) && Certified(w, m)
    ensures Certified(v, m)
  {
    forall e | e in v.issued && Covered(m, e.version) ensures Everyone(v, e) {
      EveryoneKept(w, v, e);
    }
  }

  /** What a node wrote since is later than all of its writes in an index it had. */
  lemma NoLaterWrite(w: World, v: World, k: Text, idx: Index, e: Entry)
    requires IssuedOk(w) && Advances(w, v) && (forall p :: p in idx ==> idx[p] in w.issued)
    requires WroteItself(v, k, e) && Upto(idx, k, e.version.lamport)
    ensures e in w.issued
  {
  }

  lemma WitnessKept(h: Hasher, play: iset<Text>, w: World, v: World, k: Text, root: Digest, idx: Index, t: TreeSnapshot)
    requires IssuedOk(w) && Advances(w, v) && Witness(h, play, w, k, root, idx, t)
    ensures Witness(h, play, v, k, root, idx, t)
  {
    forall p | p in idx ensures Knows(v, k, idx[p]) { KnowsKept(w, v, k, idx[p]); }
    forall e | WroteItself(v, k, e) && Upto(idx, k, e.version.lamport) ensures Reflected(v, idx, e) {
      NoLaterWrite(w, v, k, idx, e);
      assert WroteItself(w, k, e) && Reflected(w, idx, e);
      if Everyone(w, e) { EveryoneKept(w, v, e); }
    }
  }

  lemma ReportKept(h: Hasher, play: iset<Text>, w: World, v: World, k: Text, root: Digest)
    requires IssuedOk(w) && Advances(w, v) && ReportOk(h, play, w, k, root)
    ensures ReportOk(h, play, v, k, root)
  {
    var idx, t :| Witness(h, play, w, k, root, idx, t);
    WitnessKept(h, play, w, v, k, root, idx, t);
  }

  /** Messages and reports stay good, if the new ones are. */
  lemma ReportsKept(h: Hasher, play: iset<Text>, w: World, v: World)
    requires IssuedOk(w) && Advances(w, v) && ReportsOk(h, play, w)
    requires forall m :: m in v.sent && m !in w.sent ==>
      Certified(v, m.watermark) && ReportOk(h, play, v, m.origin, m.stateRoot)
    requires forall i, k :: i in v.peers && k in v.peers[i].reports ==>
      || (k in w.peers[i].reports && v.peers[i].reports[k] == w.peers[i].reports[k])
      || ReportOk(h, play, v, k, v.peers[i].reports[k].stateRoot)
    ensures ReportsOk(h, play, v)
  {
    forall m | m in v.sent
      ensures Certified(v, m.watermark) && ReportOk(h, play, v, m.origin, m.stateRoot)
    {
      if m in w.sent {
        CertifiedKept(w, v, m.watermark);
        ReportKept(h, play, w, v, m.origin, m.stateRoot);
      }
    }
    forall i, k | i in v.peers && k in v.peers[i].reports
      ensures ReportOk(h, play, v, k, v.peers[i].reports[k].stateRoot)
    {
      if k in w.peers[i].reports && v.peers[i].reports[k] == w.peers[i].reports[k] {
        ReportKept(h, play, w, v, k, w.peers[i].reports[k].stateRoot);
      }
    }
  }

  /** Only node `i` moved: the others stay as good as they were. */
  ghost predicate OnlyMoves(w: World, v: World, i: Text) {
    && i in w.peers && v.peers.Keys == w.peers.Keys && v.newest.Keys == w.newest.Keys
    && forall k :: k in w.peers && k != i ==>
         v.peers[k] == w.peers[k] && k in w.newest && v.newest[k] == w.newest[k]
  }

  lemma OthersOk(w: World, v: World, i: Text, k: Text)
    requires Advances(w, v) && OnlyMoves(w, v, i) && k in w.peers && k != i && k in w.newest && PeerOk(w, k)
    ensures PeerOk(v, k)
  {
    CertifiedKept(w, v, w.peers[k].rep.watermark);
  }

  /** A step of node `i` that advances and leaves `i` and the issued entries in order
      keeps the core invariant. */
  lemma CoreKept(w: World, v: World, i: Text)
    requires Core(w) && Advances(w, v) && OnlyMoves(w, v, i)
    requires PeerOk(v, i) && IssuedOk(v)
    ensures Core(v)
  {
    forall k | k in v.peers ensures PeerOk(v, k) {
      if k != i {
        assert PeerOk(w, k);
        OthersOk(w, v, i, k);
      }
    }
  }
}
