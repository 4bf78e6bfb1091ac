/** Convergence is reached. Once nobody edits, pulling cannot go on forever: every pull that
    is taken either buries something live or tells a node of an entry it did not know, and
    nothing is written meanwhile except burials. When every offer has been tried, all nodes
    agree, whatever announcements and collections go on. */
module NetworkPulls {
  import opened Bytes
  import opened Paths
  import opened Entries
  import opened Tree
  import opened Replicas
  import opened ReplicaFacts
  import opened Convergence
  import opened Network
  import opened NetworkSteps
  import opened NetworkTraces
  import opened NetworkCollection
  import opened NetworkRuns

  /** The pull stores something. */
  ghost predicate Takes(w: World, a: Action) {
    a.Pull? && Enabled(w, a) && Effect(w, a).changes != []
  }

  /** Node `k` holds, or held, something newer than `x`. */
  ghost predicate Past(w: World, k: Text, x: Entry) {
    k in w.newest && x.path in w.newest[k] && x.version.Less(w.newest[k][x.path].version)
  }

  /** The live entries, node by node, that may still be buried or replaced. */
  ghost function Alive(w: World): set<(Text, Entry)> {
    set k, x | k in w.peers.Keys && x in w.issued && Live(x) && !Past(w, k, x) :: (k, x)
  }

  /** The entries, node by node, that the node has yet to hear of. */
  ghost function Unknown(w: World): set<(Text, Entry)> {
    set k, x | k in w.peers.Keys && x in w.issued && !Knows(w, k, x) :: (k, x)
  }

  ghost predicate NotAbove(w: World, v: World) {
    Alive(v) < Alive(w) || (Alive(v) == Alive(w) && Unknown(v) <= Unknown(w))
  }

  ghost predicate Lower(w: World, v: World) {
    Alive(v) < Alive(w) || (Alive(v) == Alive(w) && Unknown(v) < Unknown(w))
  }

  lemma NotAboveTransitive(w: World, u: World, v: World)
    requires NotAbove(w, u) && NotAbove(u, v)
    ensures NotAbove(w, v) && (Lower(w, u) || Lower(u, v) ==> Lower(w, v))
  {
  }

  // ---------- what a pull that is taken brings ----------

  lemma PulledIsNews(w: World, i: Text, j: Text, e: Entry)
    requires Core(w) && i in w.peers && j in w.peers
    requires e.path in w.peers[j].rep.entries && e == w.peers[j].rep.entries[e.path] && ShouldAccept(w.peers[i].rep, e)
    ensures e in w.issued && !Knows(w, i, e)
  {
    PeerFacts(w, i);
    PeerFacts(w, j);
    assert HistoryOf(w, i) && HistoryOf(w, j);
    if Knows(w, i, e) {
      var top := w.newest[i][e.path];
      if e.path in w.peers[i].rep.entries {
        VersionTotal(e.version, top.version);
      } else {
        ForgottenIsKnown(w, i, j, e.path);
        AtMostAntisymmetric(e.version, top.version);
      }
    }
  }

  /** Burying writes tombstones only. */
  lemma {:induction false} Graves(l: Log, ps: seq<Text>)
    ensures l.changes <= TombstoneAll(l, ps).changes
    ensures forall c :: c in TombstoneAll(l, ps).changes[|l.changes|..] ==> !Live(c.next)
    decreases |ps|
  {
    if ps != [] {
      var m := TombstoneOne(l, ps[0]);
      Graves(m, ps[1..]);
      var out := TombstoneAll(m, ps[1..]).changes;
      assert out[|l.changes|..] == out[|l.changes|..|m.changes|] + out[|m.changes|..];
      assert out[|l.changes|..|m.changes|] == m.changes[|l.changes|..];
    }
  }

  lemma AcceptWrites(r: Replica, e: Entry)
    ensures forall x :: x in NextEntries(Accept(Log(r, []), e).changes) ==> x == e || !Live(x)
  {
    var s := Store(Log(r, []), e);
    if e.kind != Dir { Graves(s, StrictlyBelow(s.rep.entries, e.path)); }
    var t := Accept(Log(r, []), e);
    assert t.changes == s.changes + t.changes[1..];
  }

  /** With nothing live below it, the entry is stored and that is all. */
  lemma NothingBuried(r: Replica, e: Entry)
    requires e.kind == Dir || forall q :: q in r.entries && Below(q, e.path) ==> !Live(r.entries[q])
    ensures Accept(Log(r, []), e) == Store(Log(r, []), e)
    ensures NextEntries(Accept(Log(r, []), e).changes) == {e}
  {
    var s := Store(Log(r, []), e);
    OneEntry(s.changes[0]);
    if e.kind != Dir { TombstoneAllIdle(s, StrictlyBelow(s.rep.entries, e.path)); }
  }

  // ---------- the measure ----------

  lemma PastKept(w: World, v: World, k: Text, x: Entry)
    requires Advances(w, v) && Past(w, k, x)
    ensures Past(v, k, x)
  {
    assert NotOlder(w.newest[k], v.newest[k], x.path);
    VersionTransitive(x.version, w.newest[k][x.path].version, v.newest[k][x.path].version);
  }

  lemma AliveShrinks(w: World, v: World)
    requires Advances(w, v) && forall x :: x in v.issued && x !in w.issued ==> !Live(x)
    ensures Alive(v) <= Alive(w)
  {
    forall k, x | (k, x) in Alive(v) ensures (k, x) in Alive(w) {
      if Past(w, k, x) { PastKept(w, v, k, x); }
    }
  }

  lemma UnknownShrinks(w: World, v: World)
    requires Advances(w, v) && v.issued == w.issued
    ensures Unknown(v) <= Unknown(w)
  {
    forall k, x | (k, x) in Unknown(v) ensures (k, x) in Unknown(w) {
      if Knows(w, k, x) { KnowsKept(w, v, k, x); }
    }
  }

  /** What is buried was alive in this sense, and is so no longer. */
  lemma BurialCounts(w: World, v: World, i: Text, e: Entry, q: Text)
    requires Core(w) && Core(v) && Advances(w, v) && i in w.peers
    requires ShouldAccept(w.peers[i].rep, e) && v.peers[i].rep == Accept(Log(w.peers[i].rep, []), e).rep
    requires e.kind != Dir && Below(q, e.path) && q in w.peers[i].rep.entries && Live(w.peers[i].rep.entries[q])
    ensures (i, w.peers[i].rep.entries[q]) in Alive(w) - Alive(v)
  {
    var x := w.peers[i].rep.entries[q];
    PeerFacts(w, i);
    assert HistoryOf(w, i);
    VersionTotal(x.version, x.version);
    BuriedIsPast(w, v, i, e, q);
  }

  lemma BuriedIsPast(w: World, v: World, i: Text, e: Entry, q: Text)
    requires Core(w) && Core(v) && Advances(w, v) && i in w.peers
    requires ShouldAccept(w.peers[i].rep, e) && v.peers[i].rep == Accept(Log(w.peers[i].rep, []), e).rep
    requires e.kind != Dir && Below(q, e.path) && q in w.peers[i].rep.entries && Live(w.peers[i].rep.entries[q])
    ensures Past(v, i, w.peers[i].rep.entries[q])
  {
    var l := Log(w.peers[i].rep, []);
    PeerFacts(w, i);
    PeerFacts(v, i);
    AcceptReplaces(l, e, q);
    AcceptGrows(l, e);
    assert HistoryOf(w, i) && HistoryOf(v, i);
    assert NotOlder(w.newest[i], v.newest[i], q);
  }

  lemma StoringCounts(w: World, v: World, i: Text, e: Entry)
    requires Core(w) && Core(v) && Advances(w, v) && i in w.peers && e in w.issued && !Knows(w, i, e)
    requires v.peers[i].rep == Store(Log(w.peers[i].rep, []), e).rep && v.issued == w.issued
    ensures (i, e) in Unknown(w) - Unknown(v)
  {
    PeerFacts(v, i);
    assert HistoryOf(v, i);
  }

  /** `v` is `w` after node `i` accepted `e`. */
  ghost predicate Accepts(w: World, v: World, i: Text, e: Entry) {
    && Core(w) && Core(v) && Advances(w, v) && i in w.peers
    && ShouldAccept(w.peers[i].rep, e) && e in w.issued && !Knows(w, i, e)
    && v.peers[i].rep == Accept(Log(w.peers[i].rep, []), e).rep
    && v.issued == w.issued + NextEntries(Accept(Log(w.peers[i].rep, []), e).changes)
  }

  lemma BurialLowers(w: World, v: World, i: Text, e: Entry, q: Text)
    requires Accepts(w, v, i, e)
    requires e.kind != Dir && Below(q, e.path) && q in w.peers[i].rep.entries && Live(w.peers[i].rep.entries[q])
    ensures Lower(w, v)
  {
    AcceptWrites(w.peers[i].rep, e);
    AliveShrinks(w, v);
    BurialCounts(w, v, i, e, q);
  }

  lemma StoringLowers(w: World, v: World, i: Text, e: Entry)
    requires Accepts(w, v, i, e)
    requires e.kind == Dir ||
      forall q :: q in w.peers[i].rep.entries && Below(q, e.path) ==> !Live(w.peers[i].rep.entries[q])
    ensures Lower(w, v)
  {
    NothingBuried(w.peers[i].rep, e);
    assert v.issued == w.issued;
    AliveShrinks(w, v);
    UnknownShrinks(w, v);
    StoringCounts(w, v, i, e);
  }

  lemma AcceptLowers(w: World, i: Text, j: Text, e: Entry)
    requires Core(w) && i in w.peers && j in w.peers && ShouldAccept(w.peers[i].rep, e)
    requires e.path in w.peers[j].rep.entries && w.peers[j].rep.entries[e.path] == e
    ensures i in w.newest && Lower(w, OfferedTo(w, i, e))
  {
    OfferedKeeps(w, i, j, e);
    var v, idx := OfferedTo(w, i, e), w.peers[i].rep.entries;
    PulledIsNews(w, i, j, e);
    if q :| e.kind != Dir && q in idx && Below(q, e.path) && Live(idx[q]) {
      BurialLowers(w, v, i, e, q);
    } else {
      StoringLowers(w, v, i, e);
    }
  }

  /** An entry that is refused leaves the measure alone. */
  lemma RefusalLevel(w: World, i: Text, j: Text, e: Entry)
    requires Core(w) && i in w.peers && !ShouldAccept(w.peers[i].rep, e)
    ensures i in w.newest && Core(OfferedTo(w, i, e)) && OfferedTo(w, i, e).peers == w.peers
    ensures Alive(OfferedTo(w, i, e)) == Alive(w) && Unknown(OfferedTo(w, i, e)) == Unknown(w)
  {
    PeerFacts(w, i);
    assert NextEntries([]) == {};
    assert w.peers[i].(rep := w.peers[i].rep) == w.peers[i];
    IdleKeeps(w, OfferedTo(w, i, e), i);
    SameHistory(w, OfferedTo(w, i, e));
  }

  lemma {:induction false} OffersLower(w: World, i: Text, j: Text, es: seq<Entry>)
    requires Core(w) && i in w.peers && j in w.peers && i != j && HeldBy(w, j, es)
    ensures i in w.newest && NotAbove(w, OfferedAll(w, i, es))
    ensures OfferAll(Log(w.peers[i].rep, []), es).changes != [] ==> Lower(w, OfferedAll(w, i, es))
    decreases |es|
  {
    PeerFacts(w, i);
    if es != [] {
      var e, u := es[0], OfferedTo(w, i, es[0]);
      assert e in es;
      OfferedKeeps(w, i, j, e);
      OffersLower(u, i, j, es[1..]);
      if ShouldAccept(w.peers[i].rep, e) {
        AcceptLowers(w, i, j, e);
      } else {
        RefusalLevel(w, i, j, e);
      }
      NotAboveTransitive(w, u, OfferedAll(w, i, es));
    }
  }

  /** A pull that stores something lowers the measure. */
  lemma PullProgress(h: Hasher, play: iset<Text>, w: World, a: Action, v: World)
    requires Core(w) && Next(h, play, w, a, v) && Takes(w, a)
    ensures Lower(w, v)
  {
    PullOffers(h, play, w, a, v);
    OffersLower(w, a.node, a.from, Arriving(w, a));
    SameHistory(OfferedAll(w, a.node, Arriving(w, a)), v);
  }

  // ---------- the other steps leave the measure alone ----------

  lemma SameHistory(w: World, v: World)
    requires v.newest == w.newest && v.issued == w.issued && v.peers.Keys == w.peers.Keys
    ensures Alive(v) == Alive(w) && Unknown(v) == Unknown(w)
  {
    forall k, x ensures (k, x) in Alive(v) <==> (k, x) in Alive(w) { assert Past(v, k, x) == Past(w, k, x); }
    forall k, x ensures (k, x) in Unknown(v) <==> (k, x) in Unknown(w) { assert Knows(v, k, x) == Knows(w, k, x); }
  }

  ghost predicate Edits(a: Action) {
    a.Local? || a.FullScan?
  }

  /** If nothing is stored, everything was refused. */
  lemma {:induction false} NoneTaken(l: Log, es: seq<Entry>)
    requires OfferAll(l, es).changes == l.changes
    ensures OfferAll(l, es) == l && forall e :: e in es ==> !ShouldAccept(l.rep, e)
    decreases |es|
  {
    if es != [] {
      OffersAppend(Offer(l, es[0]), es[1..]);
      if ShouldAccept(l.rep, es[0]) && es[0].kind != Dir {
        Graves(Store(l, es[0]), StrictlyBelow(Store(l, es[0]).rep.entries, es[0].path));
      }
      NoneTaken(l, es[1..]);
    }
  }

  lemma {:induction false} OffersAppend(l: Log, es: seq<Entry>)
    ensures l.changes <= OfferAll(l, es).changes
    decreases |es|
  {
    if es != [] {
      var s := Store(l, es[0]);
      Graves(s, StrictlyBelow(s.rep.entries, es[0].path));
      OffersAppend(Offer(l, es[0]), es[1..]);
    }
  }

  lemma OnlyPrunes(h: Hasher, play: iset<Text>, w: World, a: Action, v: World)
    requires Core(w) && Next(h, play, w, a, v) && !Edits(a) && !Takes(w, a)
    ensures PartOf(v.peers[a.node].rep.entries, w.peers[a.node].rep.entries)
    ensures NextEntries(Effect(w, a).changes) == {}
  {
    assert NextEntries([]) == {};
    if a.Pull? {
      PullOffers(h, play, w, a, v);
      NoneTaken(Log(w.peers[a.node].rep, []), Arriving(w, a));
    }
    if a.Collect? && v.peers[a.node].rep != w.peers[a.node].rep {
      var m :| v.peers[a.node].rep == MergeWatermark(w.peers[a.node].rep, m);
    }
  }

  lemma NothingNew(top: Index, idx: Index, part: Index)
    requires PartOf(idx, top) && PartOf(part, idx)
    ensures top + part == top
  {
  }

  lemma HeldIsNewest(w: World, i: Text)
    requires Core(w) && i in w.peers
    ensures i in w.newest && PartOf(w.peers[i].rep.entries, w.newest[i])
  {
    PeerFacts(w, i);
    assert HistoryOf(w, i);
  }

  lemma NewestStep(h: Hasher, play: iset<Text>, w: World, a: Action, v: World)
    requires Next(h, play, w, a, v) && a.node in w.newest
    ensures v.newest == w.newest[a.node := w.newest[a.node] + v.peers[a.node].rep.entries]
    ensures v.issued == w.issued + NextEntries(Effect(w, a).changes)
  {
  }

  /** A step that writes nothing and takes nothing leaves every history as it was. */
  lemma IdleStep(h: Hasher, play: iset<Text>, w: World, a: Action, v: World)
    requires Core(w) && Next(h, play, w, a, v) && !Edits(a) && !Takes(w, a)
    ensures v.newest == w.newest && v.issued == w.issued
  {
    var i := a.node;
    OnlyPrunes(h, play, w, a, v);
    HeldIsNewest(w, i);
    NothingNew(w.newest[i], w.peers[i].rep.entries, v.peers[i].rep.entries);
    NewestStep(h, play, w, a, v);
  }

  // ---------- pulling without end ----------

  ghost predicate QuietStep(h: Hasher, play: iset<Text>, ws: nat -> World, acts: nat -> Action, n: nat) {
    !Edits(acts(n)) && Next(h, play, ws(n), acts(n), ws(n + 1)) && Cautious(ws(n), acts(n))
  }

  /** From a state that a run can reach, the group goes on forever without anyone editing. */
  ghost predicate Resting(h: Hasher, play: iset<Text>, ws: nat -> World, acts: nat -> Action) {
    && InjectiveOn(h, play) && Inv(h, play, ws(0))
    && forall n {:trigger QuietStep(h, play, ws, acts, n)} :: QuietStep(h, play, ws, acts, n)
  }

  lemma {:induction false} RestingInv(h: Hasher, play: iset<Text>, ws: nat -> World, acts: nat -> Action, n: nat)
    requires Resting(h, play, ws, acts)
    ensures Inv(h, play, ws(n)) && ws(n).peers.Keys == ws(0).peers.Keys
    decreases n
  {
    if n > 0 {
      var m: nat := n - 1;
      RestingInv(h, play, ws, acts, m);
      RestingStep(h, play, ws, acts, m);
    }
  }

  lemma RestingStep(h: Hasher, play: iset<Text>, ws: nat -> World, acts: nat -> Action, n: nat)
    requires Resting(h, play, ws, acts) && Inv(h, play, ws(n))
    ensures Inv(h, play, ws(n + 1)) && ws(n + 1).peers.Keys == ws(n).peers.Keys
  {
    assert QuietStep(h, play, ws, acts, n);
    StepKeeps(h, play, ws(n), acts(n), ws(n + 1));
  }

  ghost predicate Refuses(ws: nat -> World, acts: nat -> Action, m: nat) {
    !Takes(ws(m), acts(m))
  }

  lemma StepNotAbove(h: Hasher, play: iset<Text>, ws: nat -> World, acts: nat -> Action, n: nat)
    requires Resting(h, play, ws, acts)
    ensures NotAbove(ws(n), ws(n + 1)) && (!Refuses(ws, acts, n) ==> Lower(ws(n), ws(n + 1)))
  {
    RestingInv(h, play, ws, acts, n);
    assert QuietStep(h, play, ws, acts, n);
    if Takes(ws(n), acts(n)) {
      PullProgress(h, play, ws(n), acts(n), ws(n + 1));
    } else {
      IdleStep(h, play, ws(n), acts(n), ws(n + 1));
      SameHistory(ws(n), ws(n + 1));
    }
  }

  lemma {:induction false} StepsNotAbove(h: Hasher, play: iset<Text>, ws: nat -> World, acts: nat -> Action,
                                         s: nat, n: nat)
    requires Resting(h, play, ws, acts) && s <= n
    ensures NotAbove(ws(s), ws(n))
    decreases n
  {
    if s < n {
      var m: nat := n - 1;
      StepsNotAbove(h, play, ws, acts, s, m);
      StepNotAbove(h, play, ws, acts, m);
      NotAboveTransitive(ws(s), ws(m), ws(n));
    }
  }

  /** A pull that is taken leaves the measure lower than it ever was before. */
  lemma TakenLowers(h: Hasher, play: iset<Text>, ws: nat -> World, acts: nat -> Action, s: nat, m: nat)
    requires Resting(h, play, ws, acts) && s <= m && !Refuses(ws, acts, m)
    ensures Lower(ws(s), ws(m + 1))
  {
    StepsNotAbove(h, play, ws, acts, s, m);
    StepNotAbove(h, play, ws, acts, m);
    NotAboveTransitive(ws(s), ws(m), ws(m + 1));
  }

  /** Pulling comes to an end: from some point on every pull is refused. */
  lemma {:induction false} PullsEnd(h: Hasher, play: iset<Text>, ws: nat -> World, acts: nat -> Action, s: nat)
    returns (n: nat)
    requires Resting(h, play, ws, acts)
    ensures s <= n && forall m :: n <= m ==> Refuses(ws, acts, m)
    decreases Alive(ws(s)), Unknown(ws(s))
  {
    if m: nat :| s <= m && !Refuses(ws, acts, m) {
      TakenLowers(h, play, ws, acts, s, m);
      n := PullsEnd(h, play, ws, acts, m + 1);
    } else {
      n := s;
    }
  }

  // ---------- convergence is reached ----------

  ghost predicate Over(ws: nat -> World, acts: nat -> Action, n: nat) {
    forall m :: n <= m ==> Refuses(ws, acts, m)
  }

  lemma {:induction false} Settled(h: Hasher, play: iset<Text>, ws: nat -> World, acts: nat -> Action, n: nat, m: nat)
    requires Resting(h, play, ws, acts) && Over(ws, acts, n) && n <= m
    ensures ws(m).newest == ws(n).newest && ws(m).issued == ws(n).issued
    decreases m
  {
    if n < m {
      Settled(h, play, ws, acts, n, m - 1);
      assert Refuses(ws, acts, m - 1);
      SettledStep(h, play, ws, acts, m - 1);
    }
  }

  lemma SettledStep(h: Hasher, play: iset<Text>, ws: nat -> World, acts: nat -> Action, n: nat)
    requires Resting(h, play, ws, acts) && Refuses(ws, acts, n)
    ensures ws(n + 1).newest == ws(n).newest && ws(n + 1).issued == ws(n).issued
  {
    RestingInv(h, play, ws, acts, n);
    assert QuietStep(h, play, ws, acts, n);
    IdleStep(h, play, ws(n), acts(n), ws(n + 1));
  }

  /** `j` goes on holding something at `p`. */
  ghost predicate Stays(ws: nat -> World, j: Text, p: Text, s: nat) {
    forall m :: s <= m ==> Holds(ws(m), j, p)
  }

  /** The pull gets as far as the entry that `j` holds at `p`. */
  ghost predicate Tries(w: World, a: Action, i: Text, j: Text, p: Text) {
    && a.Pull? && a.node == i && a.from == j && i in w.peers
    && exists e :: e in Arriving(w, a) && e.path == p
  }

  /** Whatever a node goes on holding, every other node tries to pull again and again. */
  ghost predicate Fair(ws: nat -> World, acts: nat -> Action) {
    forall i, j, p, s :: i in ws(0).peers && i != j && Stays(ws, j, p, s) ==>
      exists m :: s <= m && Tries(ws(m), acts(m), i, j, p)
  }

  /** Once pulling is over, everyone knows the newest entry of everyone. */
  lemma AllKnow(h: Hasher, play: iset<Text>, ws: nat -> World, acts: nat -> Action, n: nat, i: Text, j: Text, p: Text)
    requires Resting(h, play, ws, acts) && Fair(ws, acts) && Over(ws, acts, n)
    requires i in ws(n).peers && j in ws(n).newest && p in ws(n).newest[j]
    ensures ws(n).newest[j][p].path == p && Knows(ws(n), i, ws(n).newest[j][p])
  {
    RestingInv(h, play, ws, acts, n);
    var e := ws(n).newest[j][p];
    PeerFacts(ws(n), j);
    assert HistoryOf(ws(n), j);
    if i != j && Stays(ws, j, p, n) {
      var m: nat :| n <= m && Tries(ws(m), acts(m), i, j, p);
      KnownWhenTried(h, play, ws, acts, n, m, i, j, p);
    } else if i != j {
      var m: nat :| n <= m && !Holds(ws(m), j, p);
      Settled(h, play, ws, acts, n, m);
      RestingInv(h, play, ws, acts, m);
      MissingIsKnown(h, play, ws(m), j, p);
      assert Knows(ws(m), i, e);
    }
  }

  lemma KnownWhenTried(h: Hasher, play: iset<Text>, ws: nat -> World, acts: nat -> Action, n: nat, m: nat,
                       i: Text, j: Text, p: Text)
    requires Resting(h, play, ws, acts) && Over(ws, acts, n) && n <= m
    requires Tries(ws(m), acts(m), i, j, p) && j in ws(n).newest && p in ws(n).newest[j]
    ensures Knows(ws(n), i, ws(n).newest[j][p])
  {
    Settled(h, play, ws, acts, n, m);
    RestingInv(h, play, ws, acts, m);
    assert QuietStep(h, play, ws, acts, m) && Refuses(ws, acts, m);
    var e :| e in Arriving(ws(m), acts(m)) && e.path == p;
    TriedKnown(h, play, ws(m), acts(m), ws(m + 1), e);
    HeldFacts(h, play, ws(m), j, p);
    assert Knows(ws(m), i, ws(n).newest[j][p]);
  }

  /** What is tried and not taken is known. */
  lemma TriedKnown(h: Hasher, play: iset<Text>, w: World, a: Action, v: World, e: Entry)
    requires Inv(h, play, w) && Next(h, play, w, a, v) && a.Pull? && !Takes(w, a) && e in Arriving(w, a)
    ensures Holds(w, a.from, e.path) && EntryAt(w, a.from, e.path) == e && Knows(w, a.node, e)
  {
    var start := Log(w.peers[a.node].rep, []);
    PullOffers(h, play, w, a, v);
    NoneTaken(start, Arriving(w, a));
    ThroughValid(start, a.batch, e);
    RefusedKnown(h, play, w, a.node, a.from, e.path);
  }

  lemma HistoriesMeet(h: Hasher, play: iset<Text>, ws: nat -> World, acts: nat -> Action, n: nat)
    requires Resting(h, play, ws, acts) && Fair(ws, acts) && Over(ws, acts, n)
    ensures SameHistories(ws(n))
  {
    var w := ws(n);
    RestingInv(h, play, ws, acts, n);
    forall i, j | i in w.newest && j in w.newest ensures Follows(w, i, j) {
      forall p | p in w.newest[j] ensures w.newest[j][p].path == p && Knows(w, i, w.newest[j][p]) {
        AllKnow(h, play, ws, acts, n, i, j, p);
      }
    }
    forall i, j | i in w.newest && j in w.newest ensures w.newest[i] == w.newest[j] { KnownIsSame(w, i, j); }
  }

  /** Convergence is reached. If after any run nobody edits and every offer is tried again
      and again, then after finitely many steps no pull is taken any more and all nodes
      agree, for good, while announcements and collections go on. */
  lemma EventualAgreement(h: Hasher, play: iset<Text>, past: seq<World>, done: seq<Action>,
                    ws: nat -> World, acts: nat -> Action) returns (n: nat)
    requires Run(h, play, past, done) && ws(0) == past[|done|]
    requires forall k {:trigger QuietStep(h, play, ws, acts, k)} :: QuietStep(h, play, ws, acts, k)
    requires Fair(ws, acts)
    ensures Over(ws, acts, n)
    ensures forall m :: n <= m ==> AllAgree(ws(m)) && ws(m).newest == ws(n).newest
  {
    RunInv(h, play, past, done, |done|);
    n := PullsEnd(h, play, ws, acts, 0);
    HistoriesMeet(h, play, ws, acts, n);
    forall m: nat | n <= m ensures AllAgree(ws(m)) && ws(m).newest == ws(n).newest {
      Settled(h, play, ws, acts, n, m);
      RestingInv(h, play, ws, acts, m);
      HistoriesAgree(h, play, ws(m));
    }
  }
}
