/** The steps that forget deletions, and the invariant of the whole group. When the root
    reports a node holds all match its own root, however old they are, every node knows of
    every deletion the node is about to forget. */
module NetworkCollection {
  import opened Bytes
  import opened Entries
  import opened Tree
  import opened Replicas
  import opened Daemons
  import opened Network
  import opened NetworkSteps
  import opened NetworkTrees

  /** A report of the root that a node's tree has was made on what that tree shows. */
  lemma ReportedIndex(h: Hasher, play: iset<Text>, w: World, i: Text, k: Text) returns (t: TreeSnapshot)
    requires InjectiveOn(h, play) && i in w.peers && i in w.shown && Showing(h, play, w, i)
    requires ReportOk(h, play, w, k, w.peers[i].tree.rootHash)
    ensures Witness(h, play, w, k, w.peers[i].tree.rootHash, w.shown[i], t)
  {
    var idx, s :| Witness(h, play, w, k, w.peers[i].tree.rootHash, idx, s);
    EqualRootsEqualIndices(h, play, s, idx, w.peers[i].tree, w.shown[i]);
    t := s;
  }

  /** Everyone knows every entry that the collecting node's tree shows. */
  lemma AgreedKnown(h: Hasher, play: iset<Text>, w: World, i: Text, p: Text)
    requires InjectiveOn(h, play) && Inv(h, play, w) && Agreed(w, i) && p in w.shown[i]
    ensures Everyone(w, w.shown[i][p])
  {
    assert ShownOk(h, play, w, i);
    forall k | k in w.peers ensures Knows(w, k, w.shown[i][p]) {
      if k != i {
        var report := w.peers[i].reports[k];
        var t := ReportedIndex(h, play, w, i, k);
      }
    }
  }

  /** Of what a tombstone's origin wrote up to that tombstone, everything is shown by the
      collecting node's tree, in this version or a newer one, or known to everyone. */
  lemma OriginReflected(h: Hasher, play: iset<Text>, w: World, i: Text, e: Entry)
    requires InjectiveOn(h, play) && Inv(h, play, w) && Agreed(w, i) && Candid(w, i)
    requires e in w.issued && Upto(w.shown[i], e.version.origin, e.version.lamport)
    ensures Reflected(w, w.shown[i], e)
  {
    var o := e.version.origin;
    assert ShownOk(h, play, w, i);
    assert o in w.peers;
    if o == i {
      PresentWitness(h, play, w, i);
      assert WroteItself(w, i, e);
    } else {
      var report := w.peers[i].reports[o];
      var t := ReportedIndex(h, play, w, i, o);
      assert WroteItself(w, o, e);
    }
  }

  /** The watermark of a collection is certified, if the collecting node's tree is candid and
      shows every tombstone of its index. */
  lemma MarksCertified(h: Hasher, play: iset<Text>, w: World, i: Text, m: Watermark)
    requires InjectiveOn(h, play) && Inv(h, play, w) && Agreed(w, i) && Candid(w, i) && GravesShown(w, i)
    requires IsMarks(m, w.peers[i].rep.entries)
    ensures Certified(w, m)
  {
    PeerFacts(w, i);
    var idx := w.peers[i].rep.entries;
    forall o | o in m ensures o in w.peers && m[o] <= w.peers[o].rep.lamport {
      var q :| TopTombstone(idx, q, o, m[o]);
      assert idx[q] in w.issued;
    }
    forall e | e in w.issued && Covered(m, e.version) ensures Everyone(w, e) {
      var q :| TopTombstone(idx, q, e.version.origin, m[e.version.origin]);
      assert q in w.shown[i] && w.shown[i][q] == idx[q];
      OriginReflected(h, play, w, i, e);
      if !Everyone(w, e) {
        AgreedKnown(h, play, w, i, e.path);
        ShownPath(h, play, w, i, e.path);
        KnownBelow(w, w.shown[i][e.path], e);
      }
    }
  }

  lemma ShownPath(h: Hasher, play: iset<Text>, w: World, i: Text, p: Text)
    requires Inv(h, play, w) && i in w.peers && p in w.shown[i]
    ensures w.shown[i][p].path == p
  {
    assert ShownOk(h, play, w, i);
  }

  // ---------- the three steps ----------

  /** These steps write nothing. */
  lemma WritesNothing(h: Hasher, play: iset<Text>, w: World, a: Action, v: World)
    requires Next(h, play, w, a, v) && w.newest.Keys == w.peers.Keys
    requires a.Announce? || a.Deliver? || a.Collect?
    ensures OnlyMoves(w, v, a.node) && v.issued == w.issued
    ensures v.newest[a.node] == w.newest[a.node] + v.peers[a.node].rep.entries
  {
    assert NextEntries([]) == {};
  }

  lemma StaysPut(h: Hasher, play: iset<Text>, w: World, a: Action, v: World)
    requires Core(w) && Next(h, play, w, a, v) && v.peers[a.node].rep == w.peers[a.node].rep
    requires a.Announce? || a.Deliver? || a.Collect?
    ensures Core(v) && Advances(w, v)
  {
    WritesNothing(h, play, w, a, v);
    IdleKeeps(w, v, a.node);
  }

  lemma Merged(h: Hasher, play: iset<Text>, w: World, a: Action, v: World, m: Watermark)
    requires Core(w) && Next(h, play, w, a, v) && Certified(w, m)
    requires a.Deliver? || a.Collect?
    requires v.peers[a.node].rep == MergeWatermark(w.peers[a.node].rep, m)
    ensures Core(v) && Advances(w, v)
  {
    WritesNothing(h, play, w, a, v);
    MergeKeeps(w, v, a.node, m);
  }

  lemma DeliverKeeps(h: Hasher, play: iset<Text>, w: World, a: Action, v: World)
    requires Inv(h, play, w) && Next(h, play, w, a, v) && a.Deliver?
    ensures Core(v) && Advances(w, v)
  {
    if a.message.watermark == map[] {
      StaysPut(h, play, w, a, v);
    } else {
      Merged(h, play, w, a, v, a.message.watermark);
    }
  }

  lemma CollectKeeps(h: Hasher, play: iset<Text>, w: World, a: Action, v: World)
    requires InjectiveOn(h, play) && Inv(h, play, w) && Next(h, play, w, a, v) && a.Collect?
    requires Cautious(w, a)
    ensures Core(v) && Advances(w, v)
  {
    var r := w.peers[a.node].rep;
    if Agreed(w, a.node) && v.peers[a.node].rep != r {
      var m :| IsMarks(m, r.entries) && v.peers[a.node].rep == if m == map[] then r else MergeWatermark(r, m);
      MarksCertified(h, play, w, a.node, m);
      Merged(h, play, w, a, v, m);
    } else {
      StaysPut(h, play, w, a, v);
    }
  }

  // ---------- every step ----------

  lemma StepCore(h: Hasher, play: iset<Text>, w: World, a: Action, v: World)
    requires InjectiveOn(h, play) && Inv(h, play, w) && Next(h, play, w, a, v) && Cautious(w, a)
    ensures Core(v) && Advances(w, v)
  {
    match a {
      case Local(_, _, _) => LocalKeeps(h, play, w, a, v);
      case FullScan(_, _) => LocalKeeps(h, play, w, a, v);
      case Pull(_, _, _) => PullKeeps(h, play, w, a, v);
      case Announce(_, _) => StaysPut(h, play, w, a, v);
      case Deliver(_, _) => DeliverKeeps(h, play, w, a, v);
      case Collect(_) => CollectKeeps(h, play, w, a, v);
    }
  }

  /** What a node may announce is true. */
  lemma GoodMessage(h: Hasher, play: iset<Text>, w: World, i: Text, m: Announcement)
    requires Inv(h, play, w) && Enabled(w, Announce(i, m)) && Candid(w, i)
    ensures Certified(w, m.watermark) && ReportOk(h, play, w, m.origin, m.stateRoot)
  {
    PeerFacts(w, i);
    PresentWitness(h, play, w, i);
    EmptyCertified(w);
  }

  lemma NewMessage(h: Hasher, play: iset<Text>, w: World, i: Text, m: Announcement, v: World)
    requires Inv(h, play, w) && Enabled(w, Announce(i, m)) && Candid(w, i) && Advances(w, v)
    ensures Certified(v, m.watermark) && ReportOk(h, play, v, m.origin, m.stateRoot)
  {
    GoodMessage(h, play, w, i, m);
    ReportKept(h, play, w, v, m.origin, m.stateRoot);
    CertifiedKept(w, v, m.watermark);
  }

  /** A report is an old one or the one just delivered. */
  lemma ReportSources(h: Hasher, play: iset<Text>, w: World, a: Action, v: World, i: Text, k: Text)
    requires Next(h, play, w, a, v) && i in v.peers && k in v.peers[i].reports
    ensures || (k in w.peers[i].reports && v.peers[i].reports[k] == w.peers[i].reports[k])
            || (a.Deliver? && a.message in w.sent && k == a.message.origin
                && v.peers[i].reports[k] == RootReport(a.message.stateRoot, a.message.lamport))
  {
  }

  lemma MessageSources(h: Hasher, play: iset<Text>, w: World, a: Action, v: World, m: Announcement)
    requires Next(h, play, w, a, v) && m in v.sent && m !in w.sent
    ensures a.Announce? && Enabled(w, Announce(a.node, m))
  {
  }

  lemma StepReports(h: Hasher, play: iset<Text>, w: World, a: Action, v: World)
    requires Inv(h, play, w) && Next(h, play, w, a, v) && Cautious(w, a) && Advances(w, v)
    ensures ReportsOk(h, play, v)
  {
    forall m | m in v.sent && m !in w.sent
      ensures Certified(v, m.watermark) && ReportOk(h, play, v, m.origin, m.stateRoot)
    {
      MessageSources(h, play, w, a, v, m);
      NewMessage(h, play, w, a.node, m, v);
    }
    forall i, k | i in v.peers && k in v.peers[i].reports
      ensures || (k in w.peers[i].reports && v.peers[i].reports[k] == w.peers[i].reports[k])
              || ReportOk(h, play, v, k, v.peers[i].reports[k].stateRoot)
    {
      ReportSources(h, play, w, a, v, i, k);
      if a.Deliver? && a.message in w.sent {
        ReportKept(h, play, w, v, a.message.origin, a.message.stateRoot);
      }
    }
    ReportsKept(h, play, w, v);
  }

  // ---------- the whole ----------

  /** Every step keeps the invariant, as long as announcements and collections are made with
      trees that leave out no own write but the latest, and collections with trees that show
      every tombstone. */
  lemma StepKeeps(h: Hasher, play: iset<Text>, w: World, a: Action, v: World)
    requires InjectiveOn(h, play) && Inv(h, play, w) && Next(h, play, w, a, v) && Cautious(w, a)
    ensures Inv(h, play, v) && Advances(w, v)
  {
    StepCore(h, play, w, a, v);
    StepTrees(h, play, w, a, v);
    StepReports(h, play, w, a, v);
  }

  lemma InitInv(h: Hasher, play: iset<Text>, w: World)
    requires Init(h, play, w)
    ensures Inv(h, play, w)
  {
    forall i | i in w.peers ensures PeerOk(w, i) && ShownOk(h, play, w, i) {}
  }
}
