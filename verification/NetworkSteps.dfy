/** Every step of the group keeps the core invariant of Network.dfy: who knows what, and that
    whatever a watermark covers is known to all. */
module NetworkSteps {
  import opened Bytes
  import opened Entries
  import opened Replicas
  import opened ReplicaFacts
  import opened Collection
  import opened Convergence
  import opened Network

  lemma MovesForward(w: World, v: World, i: Text)
    requires OnlyMoves(w, v, i) && w.newest.Keys == w.peers.Keys
    requires forall p :: NotOlder(w.newest[i], v.newest[i], p)
    requires w.peers[i].rep.lamport <= v.peers[i].rep.lamport && w.issued <= v.issued
    requires forall e :: e in v.issued && e !in w.issued ==>
      e.version.origin in w.peers && w.peers[e.version.origin].rep.lamport < e.version.lamport
    ensures Advances(w, v)
  {
    forall k | k in w.newest ensures forall p :: NotOlder(w.newest[k], v.newest[k], p) {}
  }

  // ---------- what the core invariant speaks of ----------

  /** The two states differ at most in trees, what they show, reports and messages. */
  ghost predicate SameData(u: World, v: World) {
    && v.peers.Keys == u.peers.Keys && v.issued == u.issued && v.newest == u.newest
    && forall k :: k in u.peers ==> v.peers[k].rep == u.peers[k].rep
  }

  lemma CoreSame(u: World, v: World)
    requires Core(u) && SameData(u, v)
    ensures Core(v)
  {
    forall k | k in v.peers ensures PeerOk(v, k) {
      assert PeerOk(u, k);
      forall e | e in v.issued && Covered(v.peers[k].rep.watermark, e.version) ensures Everyone(v, e) {
        assert Everyone(u, e);
        EveryoneSame(u, v, e);
      }
    }
    forall e | e in v.issued ensures Knows(v, e.version.origin, e) { assert Knows(u, e.version.origin, e); }
  }

  lemma EveryoneSame(u: World, v: World, e: Entry)
    requires Everyone(u, e) && SameData(u, v)
    ensures Everyone(v, e)
  {
    forall k | k in v.peers ensures Knows(v, k, e) { assert Knows(u, k, e); }
  }

  lemma AdvancesSame(w: World, u: World, v: World)
    requires Advances(w, u) && SameData(u, v)
    ensures Advances(w, v)
  {
  }

  /** `w` after node `i` took up replica and log `l`. */
  ghost function MovedTo(w: World, i: Text, l: Log): World
    requires i in w.newest && i in w.peers
  {
    w.(peers := w.peers[i := w.peers[i].(rep := l.rep)],
       issued := w.issued + NextEntries(l.changes),
       newest := w.newest[i := w.newest[i] + l.rep.entries])
  }

  /** A step that neither merges nor collects is a change of one replica. */
  lemma StepMoves(h: Hasher, play: iset<Text>, w: World, a: Action, v: World)
    requires Next(h, play, w, a, v) && a.node in w.newest && !(a.Collect? && Agreed(w, a.node))
    ensures SameData(MovedTo(w, a.node, Effect(w, a)), v)
  {
  }

  lemma PeerFacts(w: World, i: Text)
    requires Core(w) && i in w.peers
    ensures i in w.newest && PeerOk(w, i)
    ensures forall p :: p in w.peers[i].rep.entries ==>
      w.peers[i].rep.entries[p] in w.issued && w.peers[i].rep.entries[p].path == p
  {
    assert PeerOk(w, i);
  }

  // ---------- a node writes ----------

  /** `v` is `w` after node `i` went from `a` to `b` by local writes. */
  ghost predicate WritesTo(w: World, v: World, i: Text, a: Log, b: Log) {
    && i in w.peers && i in w.newest && a.rep == w.peers[i].rep && Grows(a, b)
    && v == w.(peers := w.peers[i := w.peers[i].(rep := b.rep)],
               issued := w.issued + NextEntries(b.changes[|a.changes|..]),
               newest := w.newest[i := w.newest[i] + b.rep.entries])
  }

  lemma NewlyIssued(a: Log, b: Log, e: Entry) returns (k: nat)
    requires Grows(a, b) && e in NextEntries(b.changes[|a.changes|..])
    ensures |a.changes| <= k < |b.changes| && b.changes[k].next == e && Issued(a, b, k)
    ensures e.version == Version(a.rep.lamport + 1 + k - |a.changes|, a.rep.origin)
  {
    var news := b.changes[|a.changes|..];
    var c :| c in news && c.next == e;
    var j :| 0 <= j < |news| && news[j] == c;
    k := |a.changes| + j;
    assert b.changes[k] == c;
    assert Issued(a, b, k);
  }

  /** Two entries written in one go under the same version are the same. */
  lemma NewAlike(a: Log, b: Log, e: Entry, f: Entry)
    requires Grows(a, b) && e.version == f.version
    requires e in NextEntries(b.changes[|a.changes|..]) && f in NextEntries(b.changes[|a.changes|..])
    ensures e == f
  {
    var k := NewlyIssued(a, b, e);
    var j := NewlyIssued(a, b, f);
  }

  lemma NewStamp(a: Log, b: Log, e: Entry)
    requires Grows(a, b) && e in NextEntries(b.changes[|a.changes|..])
    ensures e.version.origin == a.rep.origin && a.rep.lamport < e.version.lamport
  {
    var k := NewlyIssued(a, b, e);
  }

  lemma WriteHistory(w: World, v: World, i: Text, a: Log, b: Log, p: Text)
    requires Core(w) && WritesTo(w, v, i, a, b)
    ensures NotOlder(w.newest[i], v.newest[i], p)
    ensures p in b.rep.entries ==> b.rep.entries[p] in v.issued
  {
    assert PeerOk(w, i);
    if p in b.rep.entries {
      assert OldOrIssued(a, b, p);
      if p in a.rep.entries && a.rep.entries[p] == b.rep.entries[p] {
      } else {
        var k :| |a.changes| <= k < |b.changes| && b.changes[k].path == p && b.changes[k].next == b.rep.entries[p];
        assert Issued(a, b, k);
        assert b.changes[|a.changes|..][k - |a.changes|] == b.changes[k];
      }
    }
  }

  lemma WriteStamps(w: World, v: World, i: Text, a: Log, b: Log, e: Entry)
    requires Core(w) && WritesTo(w, v, i, a, b) && e in v.issued && e !in w.issued
    ensures e.version.origin == i && w.peers[i].rep.lamport < e.version.lamport
  {
    assert PeerOk(w, i);
    NewStamp(a, b, e);
  }

  lemma WriteAdvances(w: World, v: World, i: Text, a: Log, b: Log)
    requires Core(w) && WritesTo(w, v, i, a, b)
    ensures Advances(w, v) && OnlyMoves(w, v, i)
  {
    forall p ensures NotOlder(w.newest[i], v.newest[i], p) { WriteHistory(w, v, i, a, b, p); }
    forall e | e in v.issued && e !in w.issued
      ensures e.version.origin in w.peers && w.peers[e.version.origin].rep.lamport < e.version.lamport
    {
      WriteStamps(w, v, i, a, b, e);
    }
    MovesForward(w, v, i);
  }

  /** A version is never used twice. */
  lemma WriteFresh(w: World, v: World, i: Text, a: Log, b: Log, e: Entry, f: Entry)
    requires Stamped(w) && WritesTo(w, v, i, a, b) && w.peers[i].rep.origin == i
    requires e in v.issued && f in v.issued && e.version == f.version
    ensures e == f
  {
    var news := NextEntries(b.changes[|a.changes|..]);
    if e !in w.issued {
      NewStamp(a, b, e);
      if f in w.issued { assert false; } else { NewAlike(a, b, e, f); }
    } else if f !in w.issued {
      NewStamp(a, b, f);
    }
  }

  lemma WriteKnown(w: World, v: World, i: Text, a: Log, b: Log, e: Entry)
    requires Core(w) && WritesTo(w, v, i, a, b) && Advances(w, v)
    requires e in v.issued
    ensures e.version.origin in v.peers && e.version.lamport <= v.peers[e.version.origin].rep.lamport
    ensures Knows(v, e.version.origin, e)
  {
    assert PeerOk(w, i);
    if e in w.issued {
      KnowsKept(w, v, e.version.origin, e);
    } else {
      var k := NewlyIssued(a, b, e);
      assert v.newest[i][e.path] == b.rep.entries[e.path];
    }
  }

  lemma WriteIssued(w: World, v: World, i: Text, a: Log, b: Log)
    requires Core(w) && WritesTo(w, v, i, a, b) && Advances(w, v)
    ensures IssuedOk(v)
  {
    PeerFacts(w, i);
    forall e | e in v.issued
      ensures e.version.origin in v.peers && e.version.lamport <= v.peers[e.version.origin].rep.lamport
      ensures Knows(v, e.version.origin, e)
    {
      WriteKnown(w, v, i, a, b, e);
    }
    forall e, f | e in v.issued && f in v.issued && e.version == f.version ensures e == f {
      WriteFresh(w, v, i, a, b, e, f);
    }
  }

  /** Local writes keep the invariant. */
  lemma WriteKeeps(w: World, v: World, i: Text, a: Log, b: Log)
    requires Core(w) && WritesTo(w, v, i, a, b)
    ensures Core(v) && Advances(w, v)
  {
    assert PeerOk(w, i);
    WriteAdvances(w, v, i, a, b);
    WriteIssued(w, v, i, a, b);
    GrowsOk(a, b);
    CertifiedKept(w, v, w.peers[i].rep.watermark);
    forall p | p in v.newest[i]
      ensures v.newest[i][p] in v.issued && v.newest[i][p].path == p
      ensures v.newest[i][p].version.lamport <= v.peers[i].rep.lamport
      ensures p !in b.rep.entries ==> DeadTombstone(b.rep.watermark, v.newest[i][p])
    {
      WriteHistory(w, v, i, a, b, p);
    }
    assert HistoryOf(v, i);
    CoreKept(w, v, i);
  }

  // ---------- a node pulls ----------

  /** `u` is `w` with the pulled entry stored, before anything below it is tombstoned. */
  ghost predicate StoresIn(w: World, u: World, i: Text, j: Text, e: Entry) {
    && i in w.peers && j in w.peers && i in w.newest
    && e.path in w.peers[j].rep.entries && w.peers[j].rep.entries[e.path] == e
    && ShouldAccept(w.peers[i].rep, e)
    && var s := Store(Log(w.peers[i].rep, []), e).rep;
    && u == w.(peers := w.peers[i := w.peers[i].(rep := s)], newest := w.newest[i := w.newest[i] + s.entries])
  }

  /** What a node has forgotten, everyone knows of. */
  lemma ForgottenByOne(w: World, i: Text, p: Text)
    requires i in w.peers && i in w.newest && PeerOk(w, i)
    requires p in w.newest[i] && p !in w.peers[i].rep.entries
    ensures Everyone(w, w.newest[i][p]) && w.newest[i][p].path == p
  {
    assert HistoryOf(w, i);
    assert Certified(w, w.peers[i].rep.watermark);
  }

  /** What a node has forgotten at a path, every peer's entry there is at least as new as. */
  lemma ForgottenIsKnown(w: World, i: Text, j: Text, p: Text)
    requires i in w.peers && i in w.newest && j in w.peers && j in w.newest && PeerOk(w, i) && PeerOk(w, j)
    requires p in w.newest[i] && p !in w.peers[i].rep.entries && p in w.peers[j].rep.entries
    ensures w.newest[i][p].version.AtMost(w.peers[j].rep.entries[p].version)
  {
    ForgottenByOne(w, i, p);
    assert Knows(w, j, w.newest[i][p]);
    assert HistoryOf(w, j);
  }

  /** What is stored is not older than anything the node ever held there: if the node
      has forgotten a deletion, the peer the entry comes from knew of it. */
  lemma StoreNotOlder(w: World, u: World, i: Text, j: Text, e: Entry, p: Text)
    requires Core(w) && StoresIn(w, u, i, j, e)
    ensures NotOlder(w.newest[i], u.newest[i], p)
  {
    assert PeerOk(w, i) && PeerOk(w, j);
    assert HistoryOf(w, i);
    if p == e.path && p in w.newest[i] && p !in w.peers[i].rep.entries {
      ForgottenIsKnown(w, i, j, p);
    }
  }

  lemma StoreAdvances(w: World, u: World, i: Text, j: Text, e: Entry)
    requires Core(w) && StoresIn(w, u, i, j, e)
    ensures Advances(w, u) && OnlyMoves(w, u, i)
  {
    forall p ensures NotOlder(w.newest[i], u.newest[i], p) { StoreNotOlder(w, u, i, j, e, p); }
    MovesForward(w, u, i);
  }

  lemma StoreHistory(w: World, u: World, i: Text, j: Text, e: Entry)
    requires StoresIn(w, u, i, j, e) && HistoryOf(w, i) && e in w.issued
    ensures HistoryOf(u, i)
  {
  }

  lemma StorePeer(w: World, u: World, i: Text, j: Text, e: Entry)
    requires StoresIn(w, u, i, j, e) && j in w.newest && PeerOk(w, i) && PeerOk(w, j) && Advances(w, u)
    ensures PeerOk(u, i)
  {
    StoreOk(Log(w.peers[i].rep, []), e);
    CertifiedKept(w, u, w.peers[i].rep.watermark);
    assert e in w.issued by { assert HistoryOf(w, j); }
    StoreHistory(w, u, i, j, e);
  }

  lemma StoreKeeps(w: World, u: World, i: Text, j: Text, e: Entry)
    requires Core(w) && StoresIn(w, u, i, j, e)
    ensures Core(u) && Advances(w, u)
  {
    StoreAdvances(w, u, i, j, e);
    assert PeerOk(w, i) && PeerOk(w, j);
    StorePeer(w, u, i, j, e);
    IssuedKept(w, u);
    CoreKept(w, u, i);
  }

  lemma IssuedKept(w: World, u: World)
    requires IssuedOk(w) && Advances(w, u) && u.issued == w.issued
    ensures IssuedOk(u)
  {
    forall f | f in u.issued
      ensures f.version.origin in u.peers && f.version.lamport <= u.peers[f.version.origin].rep.lamport
      ensures Knows(u, f.version.origin, f)
    {
      KnowsKept(w, u, f.version.origin, f);
    }
  }

  lemma AdvancesTransitive(w: World, u: World, v: World)
    requires Advances(w, u) && Advances(u, v)
    ensures Advances(w, v)
  {
    forall k | k in w.newest ensures forall p :: NotOlder(w.newest[k], v.newest[k], p) {
      forall p ensures NotOlder(w.newest[k], v.newest[k], p) {
        assert NotOlder(w.newest[k], u.newest[k], p) && NotOlder(u.newest[k], v.newest[k], p);
        NotOlderTransitive(w.newest[k], u.newest[k], v.newest[k], p);
      }
    }
  }

  ghost function StoredAt(w: World, i: Text, e: Entry): World
    requires i in w.peers && i in w.newest
  {
    var s := Store(Log(w.peers[i].rep, []), e).rep;
    w.(peers := w.peers[i := w.peers[i].(rep := s)], newest := w.newest[i := w.newest[i] + s.entries])
  }

  /** One entry is offered to node `i`. */
  ghost function OfferedTo(w: World, i: Text, e: Entry): World
    requires i in w.peers && i in w.newest
  {
    MovedTo(w, i, Offer(Log(w.peers[i].rep, []), e))
  }

  lemma OfferedKeeps(w: World, i: Text, j: Text, e: Entry)
    requires Core(w) && i in w.peers && j in w.peers
    requires e.path in w.peers[j].rep.entries && e == w.peers[j].rep.entries[e.path]
    ensures i in w.newest && Core(OfferedTo(w, i, e)) && Advances(w, OfferedTo(w, i, e))
  {
    PeerFacts(w, i);
    if ShouldAccept(w.peers[i].rep, e) {
      AcceptedPullKeeps(w, i, j, e);
    } else {
      assert NextEntries([]) == {};
      IdleKeeps(w, OfferedTo(w, i, e), i);
    }
  }

  lemma AcceptedPullKeeps(w: World, i: Text, j: Text, e: Entry)
    requires Core(w) && i in w.peers && j in w.peers
    requires e.path in w.peers[j].rep.entries && e == w.peers[j].rep.entries[e.path] && ShouldAccept(w.peers[i].rep, e)
    ensures i in w.newest && Core(OfferedTo(w, i, e)) && Advances(w, OfferedTo(w, i, e))
  {
    var start := Log(w.peers[i].rep, []);
    PeerFacts(w, i);
    PeerFacts(w, j);
    var u, v := StoredAt(w, i, e), OfferedTo(w, i, e);
    StoreKeeps(w, u, i, j, e);
    AcceptGrows(start, e);
    ChainWrites(w, i, e, Store(start, e), Accept(start, e));
    WriteKeeps(u, v, i, Store(start, e), Accept(start, e));
    AdvancesTransitive(w, u, v);
  }

  lemma MapChain(m: Index, s: Index, t: Index)
    requires s.Keys <= t.Keys
    ensures (m + s) + t == m + t
  {
  }

  lemma ChainWrites(w: World, i: Text, e: Entry, s: Log, t: Log)
    requires i in w.peers && i in w.newest && e in w.issued
    requires s == Store(Log(w.peers[i].rep, []), e) && Grows(s, t)
    ensures WritesTo(StoredAt(w, i, e), MovedTo(w, i, t), i, s, t)
  {
    LaterChanges(s.changes, t.changes);
    OneEntry(s.changes[0]);
    assert {e} + w.issued == w.issued;
    MapChain(w.newest[i], s.rep.entries, t.rep.entries);
    PeerChain(w, i, s.rep, t.rep);
  }

  lemma PeerChain(w: World, i: Text, s: Replica, t: Replica)
    requires i in w.peers
    ensures w.peers[i := w.peers[i].(rep := s)][i := w.peers[i].(rep := t)] == w.peers[i := w.peers[i].(rep := t)]
  {
  }

  lemma OneEntry(c: Change)
    ensures NextEntries([c]) == {c.next}
  {
    assert [c][0] == c;
  }

  lemma LaterChanges(a: seq<Change>, b: seq<Change>)
    requires a <= b
    ensures NextEntries(b) == NextEntries(a) + NextEntries(b[|a|..])
  {
    assert b == a + b[|a|..];
    forall e ensures e in NextEntries(b) <==> e in NextEntries(a) || e in NextEntries(b[|a|..]) {
      if e in NextEntries(b) {
        var c :| c in b && c.next == e;
        assert c in a || c in b[|a|..];
      }
      if e in NextEntries(a) { var c :| c in a && c.next == e; assert c in b; }
      if e in NextEntries(b[|a|..]) { var c :| c in b[|a|..] && c.next == e; assert c in b; }
    }
  }

  // ---------- a whole batch ----------

  /** Entries are offered to node `i` one after the other. */
  ghost function OfferedAll(w: World, i: Text, es: seq<Entry>): World
    requires i in w.peers && i in w.newest
    decreases |es|
  {
    if es == [] then w else OfferedAll(OfferedTo(w, i, es[0]), i, es[1..])
  }

  ghost predicate HeldBy(w: World, j: Text, es: seq<Entry>)
    requires j in w.peers
  {
    forall e :: e in es ==> e.path in w.peers[j].rep.entries && w.peers[j].rep.entries[e.path] == e
  }

  lemma {:induction false} OffersKeep(w: World, i: Text, j: Text, es: seq<Entry>)
    requires Core(w) && i in w.peers && j in w.peers && i != j && HeldBy(w, j, es)
    ensures i in w.newest && Core(OfferedAll(w, i, es)) && Advances(w, OfferedAll(w, i, es))
    decreases |es|
  {
    PeerFacts(w, i);
    if es == [] {
      AdvancesReflexive(w);
    } else {
      var u := OfferedTo(w, i, es[0]);
      assert es[0] in es;
      OfferedKeeps(w, i, j, es[0]);
      OffersKeep(u, i, j, es[1..]);
      AdvancesTransitive(w, u, OfferedAll(w, i, es));
    }
  }

  lemma AdvancesReflexive(w: World)
    ensures Advances(w, w)
  {
    forall k | k in w.newest ensures forall p :: NotOlder(w.newest[k], w.newest[k], p) {}
  }

  lemma NothingMoved(w: World, i: Text)
    requires Core(w) && i in w.peers
    ensures i in w.newest && SameData(w, MovedTo(w, i, Log(w.peers[i].rep, [])))
  {
    PeerFacts(w, i);
    assert NextEntries([]) == {};
    assert HistoryOf(w, i);
    assert w.newest[i] + w.peers[i].rep.entries == w.newest[i];
  }

  lemma UnionChanges(c: seq<Change>, d: seq<Change>)
    ensures NextEntries(c + d) == NextEntries(c) + NextEntries(d)
  {
    LaterChanges(c, c + d);
    assert (c + d)[|c|..] == d;
  }

  /** Moving on from where the first entry led is moving all the way. */
  lemma MovedOn(w: World, i: Text, e: Entry, es: seq<Entry>)
    requires i in w.peers && i in w.newest
    ensures
      var u := OfferedTo(w, i, e);
      MovedTo(u, i, OfferAll(Log(u.peers[i].rep, []), es)) ==
        MovedTo(w, i, OfferAll(Offer(Log(w.peers[i].rep, []), e), es))
  {
    var first := Offer(Log(w.peers[i].rep, []), e);
    var rest := OfferAll(Log(first.rep, []), es);
    assert Shift(first.changes, Log(first.rep, [])) == first;
    ShiftOffers(first.changes, Log(first.rep, []), es);
    OffersHold(Log(first.rep, []), es);
    MovedTwice(w, i, first, rest);
  }

  lemma MovedTwice(w: World, i: Text, a: Log, b: Log)
    requires i in w.peers && i in w.newest && a.rep.entries.Keys <= b.rep.entries.Keys
    ensures MovedTo(MovedTo(w, i, a), i, b) == MovedTo(w, i, Log(b.rep, a.changes + b.changes))
  {
    UnionChanges(a.changes, b.changes);
    MapChain(w.newest[i], a.rep.entries, b.rep.entries);
    PeerChain(w, i, a.rep, b.rep);
  }

  lemma {:induction false} OffersHold(l: Log, es: seq<Entry>)
    ensures l.rep.entries.Keys <= OfferAll(l, es).rep.entries.Keys
    decreases |es|
  {
    if es != [] {
      var s := Store(l, es[0]);
      forall p | p in s.rep.entries ensures p in TombstoneBelow(s, es[0].path).rep.entries {
        TombstoneAllBuries(s, StrictlyBelow(s.rep.entries, es[0].path), p);
      }
      OffersHold(Offer(l, es[0]), es[1..]);
    }
  }

  lemma {:induction false} OffersMoved(w: World, i: Text, j: Text, es: seq<Entry>)
    requires Core(w) && i in w.peers && j in w.peers && i != j && HeldBy(w, j, es)
    ensures i in w.newest
    ensures SameData(OfferedAll(w, i, es), MovedTo(w, i, OfferAll(Log(w.peers[i].rep, []), es)))
    decreases |es|
  {
    PeerFacts(w, i);
    if es == [] {
      NothingMoved(w, i);
    } else {
      assert es[0] in es;
      OfferedKeeps(w, i, j, es[0]);
      OffersMoved(OfferedTo(w, i, es[0]), i, j, es[1..]);
      MovedOn(w, i, es[0], es[1..]);
    }
  }

  /** The entries of a pull that get through. */
  ghost function Arriving(w: World, a: Action): seq<Entry>
    requires a.Pull? && a.node in w.peers
  {
    EntriesIn(a.batch[..Through(Log(w.peers[a.node].rep, []), a.batch)])
  }

  lemma BatchHeld(w: World, j: Text, batch: seq<Fetched>, n: nat)
    requires j in w.peers && IsBatch(w.peers[j].rep.entries, batch) && n <= |batch|
    ensures HeldBy(w, j, EntriesIn(batch[..n]))
  {
    forall e | e in EntriesIn(batch[..n])
      ensures e.path in w.peers[j].rep.entries && w.peers[j].rep.entries[e.path] == e
    {
      var k :| 0 <= k < n && batch[..n][k].entry == e;
      assert batch[k] in batch;
    }
  }

  /** A pull is a series of offers of entries the peer holds. */
  lemma PullOffers(h: Hasher, play: iset<Text>, w: World, a: Action, v: World)
    requires Core(w) && Next(h, play, w, a, v) && a.Pull?
    ensures a.node in w.newest && HeldBy(w, a.from, Arriving(w, a))
    ensures Effect(w, a) == OfferAll(Log(w.peers[a.node].rep, []), Arriving(w, a))
    ensures v.peers[a.node].rep == OfferAll(Log(w.peers[a.node].rep, []), Arriving(w, a)).rep
    ensures SameData(OfferedAll(w, a.node, Arriving(w, a)), v)
  {
    PeerFacts(w, a.node);
    var n := BatchPrefix(Log(w.peers[a.node].rep, []), a.batch);
    BatchHeld(w, a.from, a.batch, n);
    StepMoves(h, play, w, a, v);
    OffersMoved(w, a.node, a.from, Arriving(w, a));
    SameDataTransitive(OfferedAll(w, a.node, Arriving(w, a)), MovedTo(w, a.node, Effect(w, a)), v);
  }

  lemma SameDataTransitive(u: World, v: World, x: World)
    requires SameData(u, v) && SameData(v, x)
    ensures SameData(u, x)
  {
  }

  /** A pull, whatever it takes and however it ends, keeps the invariant. */
  lemma PullKeeps(h: Hasher, play: iset<Text>, w: World, a: Action, v: World)
    requires Core(w) && Next(h, play, w, a, v) && a.Pull?
    ensures Core(v) && Advances(w, v)
  {
    PullOffers(h, play, w, a, v);
    OffersKeep(w, a.node, a.from, Arriving(w, a));
    CoreSame(OfferedAll(w, a.node, Arriving(w, a)), v);
    AdvancesSame(w, OfferedAll(w, a.node, Arriving(w, a)), v);
  }

  // ---------- a node whose replica stays as it is ----------

  /** `v` has the replicas of `w`. */
  lemma IdleKeeps(w: World, v: World, i: Text)
    requires Core(w) && i in w.peers && i in w.newest && v.peers.Keys == w.peers.Keys
    requires forall k :: k in w.peers ==> v.peers[k].rep == w.peers[k].rep
    requires v.newest == w.newest[i := w.newest[i] + w.peers[i].rep.entries] && v.issued == w.issued
    ensures Core(v) && Advances(w, v) && v.newest == w.newest
  {
    assert PeerOk(w, i) && HistoryOf(w, i);
    assert w.newest[i] + w.peers[i].rep.entries == w.newest[i];
    CoreSame(w, v);
    AdvancesReflexive(w);
    AdvancesSame(w, w, v);
  }

  /** Local changes and rescans keep the invariant. */
  lemma LocalKeeps(h: Hasher, play: iset<Text>, w: World, a: Action, v: World)
    requires Core(w) && Next(h, play, w, a, v) && (a.Local? || a.FullScan?)
    ensures Core(v) && Advances(w, v)
  {
    PeerFacts(w, a.node);
    var start, u := Log(w.peers[a.node].rep, []), MovedTo(w, a.node, Effect(w, a));
    StepMoves(h, play, w, a, v);
    if a.Local? {
      EventsGrow(start, a.evs, a.rules);
    } else {
      RescanGrows(start, a.scan);
    }
    assert Effect(w, a).changes[0..] == Effect(w, a).changes;
    WriteKeeps(w, u, a.node, start, Effect(w, a));
    CoreSame(u, v);
    AdvancesSame(w, u, v);
  }

  // ---------- what a tree vouches for ----------

  lemma KnownBelow(w: World, top: Entry, e: Entry)
    requires Everyone(w, top) && top.path == e.path && e.version.AtMost(top.version)
    ensures Everyone(w, e)
  {
    forall k | k in w.peers ensures Knows(w, k, e) {
      assert Knows(w, k, top);
      VersionTransitive(e.version, top.version, w.newest[k][e.path].version);
    }
  }

  /** Everyone knows what the tree hides, unless it is later than all own writes it shows. */
  ghost predicate HiddenKnown(w: World, k: Text)
    requires k in w.shown && k in w.hidden
  {
    forall e :: e in w.hidden[k] && Upto(w.shown[k], k, e.version.lamport) ==> Everyone(w, e)
  }

  lemma ShownWitness(h: Hasher, play: iset<Text>, w: World, k: Text)
    requires k in w.peers && k in w.shown && k in w.hidden && ShownOk(h, play, w, k) && HiddenKnown(w, k)
    ensures Witness(h, play, w, k, w.peers[k].tree.rootHash, w.shown[k], w.peers[k].tree)
  {
    forall e | WroteItself(w, k, e) && Upto(w.shown[k], k, e.version.lamport) ensures Reflected(w, w.shown[k], e) {
      assert e in w.hidden[k] || Reflected(w, w.shown[k], e);
    }
  }

  /** Exactly the trees of which that is true are witnesses for their root. */
  lemma WitnessExactly(h: Hasher, play: iset<Text>, w: World, k: Text)
    requires k in w.peers && k in w.shown && k in w.hidden && ShownOk(h, play, w, k)
    ensures Witness(h, play, w, k, w.peers[k].tree.rootHash, w.shown[k], w.peers[k].tree) <==> HiddenKnown(w, k)
  {
    if Witness(h, play, w, k, w.peers[k].tree.rootHash, w.shown[k], w.peers[k].tree) {
      forall e | e in w.hidden[k] && Upto(w.shown[k], k, e.version.lamport) ensures Everyone(w, e) {
        assert WroteItself(w, k, e) && Reflected(w, w.shown[k], e);
      }
    } else if HiddenKnown(w, k) {
      ShownWitness(h, play, w, k);
    }
  }

  /** What a candid tree shows is a witness for its root. */
  lemma PresentWitness(h: Hasher, play: iset<Text>, w: World, k: Text)
    requires Inv(h, play, w) && k in w.peers && Candid(w, k)
    ensures Witness(h, play, w, k, w.peers[k].tree.rootHash, w.shown[k], w.peers[k].tree)
  {
    assert ShownOk(h, play, w, k);
    ShownWitness(h, play, w, k);
  }

  lemma EmptyCertified(w: World)
    ensures Certified(w, map[])
  {
  }

  // ---------- a watermark is merged ----------

  lemma JoinCovers(a: Watermark, b: Watermark, v: Version)
    requires Covered(JoinMarks(a, b), v)
    ensures Covered(a, v) || Covered(b, v)
  {
  }

  lemma CertifiedJoin(w: World, a: Watermark, b: Watermark)
    requires Certified(w, a) && Certified(w, b)
    ensures Certified(w, JoinMarks(a, b))
  {
    forall e | e in w.issued && Covered(JoinMarks(a, b), e.version) ensures Everyone(w, e) {
      JoinCovers(a, b, e.version);
    }
  }

  /** `v` is `w` after node `i` merged the watermark `m`. */
  ghost predicate Merges(w: World, v: World, i: Text, m: Watermark) {
    && OnlyMoves(w, v, i) && i in w.newest
    && v.peers[i].rep == MergeWatermark(w.peers[i].rep, m)
    && v.newest[i] == w.newest[i] + v.peers[i].rep.entries
    && v.issued == w.issued
  }

  lemma MergeHistory(w: World, v: World, i: Text, m: Watermark)
    requires Merges(w, v, i, m) && HistoryOf(w, i)
    ensures HistoryOf(v, i) && v.newest[i] == w.newest[i]
    ensures w.peers[i].rep.lamport <= v.peers[i].rep.lamport
  {
    assert v.newest[i] == w.newest[i];
    forall p | p in v.newest[i] && p !in v.peers[i].rep.entries
      ensures DeadTombstone(v.peers[i].rep.watermark, v.newest[i][p])
    {
      MarksGrow(m, w.peers[i].rep.watermark);
      if p in w.peers[i].rep.entries {
        assert w.newest[i][p] == w.peers[i].rep.entries[p];
      }
    }
  }

  /** Merging a certified watermark is safe. */
  lemma MergeKeeps(w: World, v: World, i: Text, m: Watermark)
    requires Core(w) && Merges(w, v, i, m) && Certified(w, m)
    ensures Core(v) && Advances(w, v)
  {
    PeerFacts(w, i);
    MergeHistory(w, v, i, m);
    forall p ensures NotOlder(w.newest[i], v.newest[i], p) {}
    MovesForward(w, v, i);
    MergeOk(w.peers[i].rep, m);
    CertifiedJoin(w, w.peers[i].rep.watermark, m);
    CertifiedKept(w, v, v.peers[i].rep.watermark);
    IssuedKept(w, v);
    CoreKept(w, v, i);
  }
}
