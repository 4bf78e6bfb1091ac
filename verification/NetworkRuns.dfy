/** What holds over every run of the group: paths never get older, forgotten deletions never
    come back, and when no pull has anything left to do all nodes agree. */
module NetworkRuns {
  import opened Bytes
  import opened Entries
  import opened Tree
  import opened TreeBuild
  import opened Replicas
  import opened ReplicaFacts
  import opened Convergence
  import opened Network
  import opened NetworkSteps
  import opened NetworkTraces
  import opened NetworkCollection

  ghost predicate Careful(ws: seq<World>, acts: seq<Action>, n: nat)
    requires n < |acts| && |ws| == |acts| + 1
  {
    Cautious(ws[n], acts[n])
  }

  /** A run of the group: no two strings hashed for a tree collide, and announcements and
      collections are made with trees fit for them. */
  ghost predicate Run(h: Hasher, play: iset<Text>, ws: seq<World>, acts: seq<Action>) {
    && InjectiveOn(h, play) && Trace(h, play, ws, acts)
    && forall n {:trigger Careful(ws, acts, n)} :: 0 <= n < |acts| ==> Careful(ws, acts, n)
  }

  lemma RunStep(h: Hasher, play: iset<Text>, ws: seq<World>, acts: seq<Action>, n: nat)
    requires Run(h, play, ws, acts) && n < |acts| && Inv(h, play, ws[n])
    ensures Inv(h, play, ws[n + 1]) && Advances(ws[n], ws[n + 1])
  {
    assert Step(h, play, ws, acts, n) && Careful(ws, acts, n);
    StepKeeps(h, play, ws[n], acts[n], ws[n + 1]);
  }

  /** The invariant holds in every state of every run. */
  lemma {:induction false} RunInv(h: Hasher, play: iset<Text>, ws: seq<World>, acts: seq<Action>, n: nat)
    requires Run(h, play, ws, acts) && n < |ws|
    ensures Inv(h, play, ws[n])
    decreases n
  {
    if n == 0 {
      InitInv(h, play, ws[0]);
    } else {
      RunInv(h, play, ws, acts, n - 1);
      RunStep(h, play, ws, acts, n - 1);
    }
  }

  lemma {:induction false} RunAdvances(h: Hasher, play: iset<Text>, ws: seq<World>, acts: seq<Action>, m: nat, n: nat)
    requires Run(h, play, ws, acts) && m <= n < |ws|
    ensures Advances(ws[m], ws[n])
    decreases n
  {
    if m == n {
      AdvancesReflexive(ws[m]);
    } else {
      RunAdvances(h, play, ws, acts, m, n - 1);
      RunInv(h, play, ws, acts, n - 1);
      RunStep(h, play, ws, acts, n - 1);
      AdvancesTransitive(ws[m], ws[n - 1], ws[n]);
    }
  }

  lemma HeldFacts(h: Hasher, play: iset<Text>, w: World, k: Text, p: Text)
    requires Inv(h, play, w) && Holds(w, k, p)
    ensures k in w.newest && p in w.newest[k] && w.newest[k][p] == EntryAt(w, k, p)
    ensures EntryAt(w, k, p) in w.issued && EntryAt(w, k, p).path == p
    ensures EntryAt(w, k, p).version.lamport <= w.peers[k].rep.lamport
  {
    PeerFacts(w, k);
    assert HistoryOf(w, k);
  }

  // ---------- nothing gets older ----------

  /** A node's path never gets older, even if a deletion is forgotten in between. */
  lemma PathsNeverOlder(h: Hasher, play: iset<Text>, ws: seq<World>, acts: seq<Action>, m: nat, n: nat, k: Text,
                        p: Text)
    requires Run(h, play, ws, acts) && m <= n < |ws|
    requires Holds(ws[m], k, p) && Holds(ws[n], k, p)
    ensures EntryAt(ws[m], k, p).version.AtMost(EntryAt(ws[n], k, p).version)
  {
    RunInv(h, play, ws, acts, m);
    RunInv(h, play, ws, acts, n);
    RunAdvances(h, play, ws, acts, m, n);
    HeldFacts(h, play, ws[m], k, p);
    HeldFacts(h, play, ws[n], k, p);
    assert NotOlder(ws[m].newest[k], ws[n].newest[k], p);
  }

  // ---------- deletions stay deleted ----------

  /** A step leaves the newest entry of a path alone where it removes the path. */
  lemma RemovalKeepsNewest(h: Hasher, play: iset<Text>, w: World, a: Action, v: World, i: Text, p: Text)
    requires Next(h, play, w, a, v) && i in w.newest && p in w.newest[i]
    requires Holds(w, i, p) && !Holds(v, i, p)
    ensures i in v.newest && p in v.newest[i] && v.newest[i][p] == w.newest[i][p]
  {
  }

  lemma MissingIsKnown(h: Hasher, play: iset<Text>, v: World, i: Text, p: Text)
    requires Inv(h, play, v) && i in v.newest && p in v.newest[i] && !Holds(v, i, p)
    ensures v.newest[i][p].kind == Tombstone && Everyone(v, v.newest[i][p])
  {
    PeerFacts(v, i);
    assert HistoryOf(v, i);
  }

  /** Only a tombstone can be forgotten, and then every node knows of it. */
  lemma ForgottenEverywhere(h: Hasher, play: iset<Text>, ws: seq<World>, acts: seq<Action>, n: nat, i: Text, p: Text)
    requires Run(h, play, ws, acts) && n < |acts|
    requires Holds(ws[n], i, p) && !Holds(ws[n + 1], i, p)
    ensures EntryAt(ws[n], i, p).kind == Tombstone
    ensures Everyone(ws[n + 1], EntryAt(ws[n], i, p))
  {
    RunInv(h, play, ws, acts, n);
    RunInv(h, play, ws, acts, n + 1);
    HeldFacts(h, play, ws[n], i, p);
    RunRemoval(h, play, ws, acts, n, i, p);
    MissingIsKnown(h, play, ws[n + 1], i, p);
  }

  lemma RunRemoval(h: Hasher, play: iset<Text>, ws: seq<World>, acts: seq<Action>, n: nat, i: Text, p: Text)
    requires Run(h, play, ws, acts) && n < |acts| && i in ws[n].newest && p in ws[n].newest[i]
    requires Holds(ws[n], i, p) && !Holds(ws[n + 1], i, p)
    ensures i in ws[n + 1].newest && p in ws[n + 1].newest[i] && ws[n + 1].newest[i][p] == ws[n].newest[i][p]
  {
    assert Step(h, play, ws, acts, n);
    RemovalKeepsNewest(h, play, ws[n], acts[n], ws[n + 1], i, p);
  }

  /** What everyone knows of, nobody holds anything older than, and writes only newer. */
  lemma KnownFromThen(h: Hasher, play: iset<Text>, w: World, v: World, t: Entry, k: Text)
    requires Inv(h, play, w) && Inv(h, play, v) && Advances(w, v) && Everyone(w, t)
    ensures Holds(v, k, t.path) ==> t.version.AtMost(EntryAt(v, k, t.path).version)
  {
    EveryoneKept(w, v, t);
    if Holds(v, k, t.path) {
      HeldFacts(h, play, v, k, t.path);
      assert Knows(v, k, t);
    }
  }

  lemma WritesFromThen(w: World, v: World, t: Entry)
    requires Core(w) && Advances(w, v) && Everyone(w, t)
    ensures forall e :: e in v.issued && e !in w.issued && e.path == t.path ==> t.version.Less(e.version)
  {
    forall e | e in v.issued && e !in w.issued && e.path == t.path ensures t.version.Less(e.version) {
      WrittenLater(w, v, t, e);
    }
  }

  /** ... in particular for the rest of a run. */
  lemma KnownLater(h: Hasher, play: iset<Text>, ws: seq<World>, acts: seq<Action>, n: nat, m: nat, t: Entry, k: Text)
    requires Run(h, play, ws, acts) && n <= m < |ws| && Everyone(ws[n], t)
    ensures Holds(ws[m], k, t.path) ==> t.version.AtMost(EntryAt(ws[m], k, t.path).version)
    ensures forall e :: e in ws[m].issued && e !in ws[n].issued && e.path == t.path ==> t.version.Less(e.version)
  {
    RunInv(h, play, ws, acts, n);
    RunInv(h, play, ws, acts, m);
    RunAdvances(h, play, ws, acts, n, m);
    KnownFromThen(h, play, ws[n], ws[m], t, k);
    WritesFromThen(ws[n], ws[m], t);
  }

  lemma RunHeld(h: Hasher, play: iset<Text>, ws: seq<World>, acts: seq<Action>, n: nat, i: Text, p: Text)
    requires Run(h, play, ws, acts) && n < |ws| && Holds(ws[n], i, p)
    ensures EntryAt(ws[n], i, p).path == p
  {
    RunInv(h, play, ws, acts, n);
    HeldFacts(h, play, ws[n], i, p);
  }

  /** No resurrection. Once any node has forgotten the deletion of `p`, whether by its own
      collection or by merging a watermark, no node ever holds anything older at `p`, and
      whatever is written at `p` afterwards is newer. */
  lemma NoResurrection(h: Hasher, play: iset<Text>, ws: seq<World>, acts: seq<Action>, n: nat, i: Text, p: Text,
                       m: nat, k: Text)
    requires Run(h, play, ws, acts) && n < |acts| && n < m < |ws|
    requires Holds(ws[n], i, p) && !Holds(ws[n + 1], i, p)
    ensures EntryAt(ws[n], i, p).kind == Tombstone
    ensures Holds(ws[m], k, p) ==> EntryAt(ws[n], i, p).version.AtMost(EntryAt(ws[m], k, p).version)
    ensures forall e :: e in ws[m].issued && e !in ws[n + 1].issued && e.path == p ==>
      EntryAt(ws[n], i, p).version.Less(e.version)
  {
    RunHeld(h, play, ws, acts, n, i, p);
    ForgottenEverywhere(h, play, ws, acts, n, i, p);
    KnownLater(h, play, ws, acts, n + 1, m, EntryAt(ws[n], i, p), k);
  }

  lemma WrittenLater(w: World, v: World, t: Entry, e: Entry)
    requires Core(w) && Advances(w, v) && Everyone(w, t) && e in v.issued && e !in w.issued && e.path == t.path
    ensures t.version.Less(e.version)
  {
    var o := e.version.origin;
    assert Knows(w, o, t);
    PeerFacts(w, o);
    assert HistoryOf(w, o);
  }

  /** A pull never leaves the node behind an entry of the peer's that got through, taken or
      refused: what it refuses as a collected deletion it knew of already. */
  lemma PullLosesNothing(h: Hasher, play: iset<Text>, ws: seq<World>, acts: seq<Action>, n: nat, e: Entry)
    requires Run(h, play, ws, acts) && n < |acts| && acts[n].Pull? && acts[n].node in ws[n].peers
    requires e in Arriving(ws[n], acts[n])
    ensures Knows(ws[n + 1], acts[n].node, e)
  {
    RunInv(h, play, ws, acts, n);
    RunStep(h, play, ws, acts, n);
    assert Step(h, play, ws, acts, n);
    ArrivedKnown(h, play, ws[n], acts[n], ws[n + 1], e);
  }

  lemma ArrivedKnown(h: Hasher, play: iset<Text>, w: World, a: Action, v: World, e: Entry)
    requires Inv(h, play, w) && Inv(h, play, v) && Advances(w, v)
    requires Next(h, play, w, a, v) && a.Pull? && e in Arriving(w, a)
    ensures Knows(v, a.node, e)
  {
    ArrivedDominated(h, play, w, a, v, e);
    DominatedKnown(h, play, v, a.node, e);
  }

  lemma ArrivedDominated(h: Hasher, play: iset<Text>, w: World, a: Action, v: World, e: Entry)
    requires Core(w) && Next(h, play, w, a, v) && a.Pull? && e in Arriving(w, a)
    ensures Dominates(v.peers[a.node].rep, e) && ValidRemotePath(e.path) && e in w.issued
  {
    var start := Log(w.peers[a.node].rep, []);
    PeerFacts(w, a.node);
    PeerFacts(w, a.from);
    PullOffers(h, play, w, a, v);
    ThroughValid(start, a.batch, e);
    OfferAllDominates(start, Arriving(w, a), e);
  }

  /** What a node dominates it knows of. */
  lemma DominatedKnown(h: Hasher, play: iset<Text>, w: World, i: Text, e: Entry)
    requires Inv(h, play, w) && i in w.peers && e in w.issued && ValidRemotePath(e.path)
    requires Dominates(w.peers[i].rep, e)
    ensures Knows(w, i, e)
  {
    PeerFacts(w, i);
    if DeadTombstone(w.peers[i].rep.watermark, e) {
      assert Everyone(w, e);
    } else {
      HeldFacts(h, play, w, i, e.path);
    }
  }

  // ---------- agreement ----------

  /** No node has anything to take from any other. */
  ghost predicate Quiescent(w: World) {
    && (forall i :: i in w.peers ==> ValidPaths(w.peers[i].rep.entries))
    && (forall i, j, p :: i in w.peers && Holds(w, j, p) && i != j ==> !ShouldAccept(w.peers[i].rep, EntryAt(w, j, p)))
  }

  /** What a node refuses it knows of. */
  lemma RefusedKnown(h: Hasher, play: iset<Text>, w: World, i: Text, j: Text, p: Text)
    requires Inv(h, play, w) && i in w.peers && Holds(w, j, p) && ValidRemotePath(p)
    requires !ShouldAccept(w.peers[i].rep, EntryAt(w, j, p))
    ensures Knows(w, i, EntryAt(w, j, p))
  {
    HeldFacts(h, play, w, j, p);
    AcceptIffNotDominated(w.peers[i].rep, EntryAt(w, j, p));
    DominatedKnown(h, play, w, i, EntryAt(w, j, p));
  }

  lemma QuiescentKnown(h: Hasher, play: iset<Text>, w: World, i: Text, j: Text, p: Text)
    requires Inv(h, play, w) && Quiescent(w) && i in w.peers && j in w.peers && j in w.newest && p in w.newest[j]
    ensures w.newest[j][p].path == p && Knows(w, i, w.newest[j][p])
  {
    PeerFacts(w, i);
    PeerFacts(w, j);
    assert HistoryOf(w, j) && HistoryOf(w, i);
    if !Holds(w, j, p) {
      MissingIsKnown(h, play, w, j, p);
    } else if i != j {
      RefusedKnown(h, play, w, i, j, p);
    }
  }

  /** Every node has seen the same. */
  ghost predicate SameHistories(w: World) {
    forall i, j :: i in w.newest && j in w.newest ==> w.newest[i] == w.newest[j]
  }

  lemma KnownBothWays(w: World, i: Text, j: Text, p: Text)
    requires Core(w) && i in w.newest && j in w.newest && p in w.newest[i] && p in w.newest[j]
    requires Knows(w, i, w.newest[j][p]) && Knows(w, j, w.newest[i][p])
    ensures w.newest[i][p] == w.newest[j][p]
  {
    PeerFacts(w, i);
    PeerFacts(w, j);
    assert HistoryOf(w, i) && HistoryOf(w, j);
    AtMostAntisymmetric(w.newest[i][p].version, w.newest[j][p].version);
  }

  /** Node `i` knows the newest entry of `j` at every path. */
  ghost predicate Follows(w: World, i: Text, j: Text)
    requires j in w.newest
  {
    forall p :: p in w.newest[j] ==> w.newest[j][p].path == p && Knows(w, i, w.newest[j][p])
  }

  /** Nodes that know each other's newest entries have the same history. */
  lemma KnownIsSame(w: World, i: Text, j: Text)
    requires Core(w) && i in w.newest && j in w.newest && Follows(w, i, j) && Follows(w, j, i)
    ensures w.newest[i] == w.newest[j]
  {
    forall p | p in w.newest[j] ensures p in w.newest[i] && w.newest[i][p] == w.newest[j][p] {
      KnownBothWays(w, i, j, p);
    }
  }

  /** In a quiescent group all nodes have the same history. */
  lemma QuiescentAgree(h: Hasher, play: iset<Text>, w: World)
    requires Inv(h, play, w) && Quiescent(w)
    ensures SameHistories(w)
  {
    forall i, j | i in w.newest && j in w.newest ensures Follows(w, i, j) {
      forall p | p in w.newest[j] ensures w.newest[j][p].path == p && Knows(w, i, w.newest[j][p]) {
        QuiescentKnown(h, play, w, i, j, p);
      }
    }
    forall i, j | i in w.newest && j in w.newest ensures w.newest[i] == w.newest[j] { KnownIsSame(w, i, j); }
  }

  /** All nodes hold the same live entries, and with the same watermark the same index. */
  ghost predicate AllAgree(w: World) {
    forall i, j :: i in w.peers && j in w.peers ==>
      && LivePart(w.peers[i].rep.entries) == LivePart(w.peers[j].rep.entries)
      && (w.peers[i].rep.watermark == w.peers[j].rep.watermark ==> w.peers[i].rep.entries == w.peers[j].rep.entries)
  }

  lemma HeldAlike(h: Hasher, play: iset<Text>, w: World, i: Text, j: Text, p: Text)
    requires Inv(h, play, w) && SameHistories(w) && i in w.peers && j in w.peers
    ensures Holds(w, i, p) && (Live(EntryAt(w, i, p)) || w.peers[i].rep.watermark == w.peers[j].rep.watermark) ==>
      Holds(w, j, p) && EntryAt(w, j, p) == EntryAt(w, i, p)
  {
    if Holds(w, i, p) {
      HeldFacts(h, play, w, i, p);
      PeerFacts(w, i);
      PeerFacts(w, j);
      assert w.newest[i] == w.newest[j];
      assert HistoryOf(w, j);
    }
  }

  /** `j` holds all that is live in `i`, and with the same watermark all of `i`. */
  ghost predicate Includes(w: World, i: Text, j: Text)
    requires i in w.peers && j in w.peers
  {
    forall p :: Holds(w, i, p) && (Live(EntryAt(w, i, p)) || w.peers[i].rep.watermark == w.peers[j].rep.watermark)
      ==> Holds(w, j, p) && EntryAt(w, j, p) == EntryAt(w, i, p)
  }

  lemma HeldByBoth(h: Hasher, play: iset<Text>, w: World, i: Text, j: Text)
    requires Inv(h, play, w) && SameHistories(w) && i in w.peers && j in w.peers
    ensures Includes(w, i, j)
  {
    forall p | Holds(w, i, p) && (Live(EntryAt(w, i, p)) || w.peers[i].rep.watermark == w.peers[j].rep.watermark)
      ensures Holds(w, j, p) && EntryAt(w, j, p) == EntryAt(w, i, p)
    {
      HeldAlike(h, play, w, i, j, p);
    }
  }

  lemma SameIndices(w: World, i: Text, j: Text)
    requires i in w.peers && j in w.peers && Includes(w, i, j) && Includes(w, j, i)
    ensures LivePart(w.peers[i].rep.entries) == LivePart(w.peers[j].rep.entries)
    ensures w.peers[i].rep.watermark == w.peers[j].rep.watermark ==> w.peers[i].rep.entries == w.peers[j].rep.entries
  {
    var a, b := w.peers[i].rep.entries, w.peers[j].rep.entries;
    forall p | p in LivePart(a) ensures p in LivePart(b) && LivePart(a)[p] == LivePart(b)[p] { assert Holds(w, i, p); }
    forall p | p in LivePart(b) ensures p in LivePart(a) { assert Holds(w, j, p); }
    if w.peers[i].rep.watermark == w.peers[j].rep.watermark {
      forall p | p in a ensures p in b && a[p] == b[p] { assert Holds(w, i, p); }
      forall p | p in b ensures p in a { assert Holds(w, j, p); }
    }
  }

  lemma HistoriesAgree(h: Hasher, play: iset<Text>, w: World)
    requires Inv(h, play, w) && SameHistories(w)
    ensures AllAgree(w)
  {
    forall i, j | i in w.peers && j in w.peers
      ensures LivePart(w.peers[i].rep.entries) == LivePart(w.peers[j].rep.entries)
      ensures w.peers[i].rep.watermark == w.peers[j].rep.watermark ==> w.peers[i].rep.entries == w.peers[j].rep.entries
    {
      HeldByBoth(h, play, w, i, j);
      HeldByBoth(h, play, w, j, i);
      SameIndices(w, i, j);
    }
  }

  /** When no pull has anything left to do, all nodes agree. */
  lemma Converged(h: Hasher, play: iset<Text>, ws: seq<World>, acts: seq<Action>, n: nat)
    requires Run(h, play, ws, acts) && n < |ws| && Quiescent(ws[n])
    ensures AllAgree(ws[n])
  {
    RunInv(h, play, ws, acts, n);
    QuiescentAgree(h, play, ws[n]);
    HistoriesAgree(h, play, ws[n]);
  }
}
