/** What holds over every trace of the group, whatever batches fail, whatever is announced or
    collected with a tree left behind, and whether or not hashes collide: a version is never
    used twice, and a path a node goes on holding never gets older. */
module NetworkTraces {
  import opened Bytes
  import opened Entries
  import opened Replicas
  import opened ReplicaFacts
  import opened Collection
  import opened Network
  import opened NetworkSteps

  ghost predicate Step(h: Hasher, play: iset<Text>, ws: seq<World>, acts: seq<Action>, n: nat)
    requires n < |acts| && |ws| == |acts| + 1
  {
    Next(h, play, ws[n], acts[n], ws[n + 1])
  }

  /** The group goes from state to state, batches failing as they may. */
  ghost predicate Trace(h: Hasher, play: iset<Text>, ws: seq<World>, acts: seq<Action>) {
    && |ws| == |acts| + 1 && Init(h, play, ws[0])
    && forall n {:trigger Step(h, play, ws, acts, n)} :: 0 <= n < |acts| ==> Step(h, play, ws, acts, n)
  }

  /** The node holds an entry at the path. */
  predicate Holds(w: World, k: Text, p: Text) {
    k in w.peers && p in w.peers[k].rep.entries
  }

  function EntryAt(w: World, k: Text, p: Text): Entry
    requires Holds(w, k, p)
  {
    w.peers[k].rep.entries[p]
  }

  // ---------- the invariant ----------

  ghost predicate ReplicaOk(w: World, i: Text)
    requires i in w.peers
  {
    && w.peers[i].rep.origin == i && RepOk(w.peers[i].rep)
    && forall p :: p in w.peers[i].rep.entries ==> w.peers[i].rep.entries[p] in w.issued
  }

  ghost predicate Sane(w: World) {
    && w.newest.Keys == w.peers.Keys && Stamped(w)
    && forall i {:trigger ReplicaOk(w, i)} :: i in w.peers ==> ReplicaOk(w, i)
  }

  /** Same replicas, same issued entries. */
  ghost predicate SameReplicas(u: World, v: World) {
    && v.peers.Keys == u.peers.Keys && v.newest.Keys == u.newest.Keys && v.issued == u.issued
    && forall k :: k in u.peers ==> v.peers[k].rep == u.peers[k].rep
  }

  lemma SaneSame(u: World, v: World)
    requires Sane(u) && SameReplicas(u, v)
    ensures Sane(v)
  {
    forall k | k in v.peers ensures ReplicaOk(v, k) { assert ReplicaOk(u, k); }
  }

  // ---------- the steps ----------

  /** A step of node `i` that issues no version twice. */
  lemma SaneKept(w: World, v: World, i: Text)
    requires Sane(w) && i in w.peers && v.peers.Keys == w.peers.Keys && v.newest.Keys == w.newest.Keys
    requires w.issued <= v.issued && forall k :: k in w.peers && k != i ==> v.peers[k].rep == w.peers[k].rep
    requires ReplicaOk(v, i) && Stamped(v)
    ensures Sane(v)
  {
    forall k | k in v.peers ensures ReplicaOk(v, k) {
      if k != i { assert ReplicaOk(w, k); }
    }
  }

  lemma WritesSane(w: World, v: World, i: Text, a: Log, b: Log)
    requires Sane(w) && WritesTo(w, v, i, a, b)
    ensures Sane(v)
  {
    assert ReplicaOk(w, i);
    GrowsOk(a, b);
    forall p | p in b.rep.entries ensures b.rep.entries[p] in v.issued { WrittenIssued(w, v, i, a, b, p); }
    forall e | e in v.issued
      ensures e.version.origin in v.peers && e.version.lamport <= v.peers[e.version.origin].rep.lamport
    {
      if e !in w.issued { var k := NewlyIssued(a, b, e); }
    }
    forall e, f | e in v.issued && f in v.issued && e.version == f.version ensures e == f {
      WriteFresh(w, v, i, a, b, e, f);
    }
    SaneKept(w, v, i);
  }

  lemma WrittenIssued(w: World, v: World, i: Text, a: Log, b: Log, p: Text)
    requires WritesTo(w, v, i, a, b) && ReplicaOk(w, i) && p in b.rep.entries
    ensures b.rep.entries[p] in v.issued
  {
    assert OldOrIssued(a, b, p);
    if !(p in a.rep.entries && a.rep.entries[p] == b.rep.entries[p]) {
      var k :| |a.changes| <= k < |b.changes| && b.changes[k].path == p && b.changes[k].next == b.rep.entries[p];
      assert b.changes[|a.changes|..][k - |a.changes|] == b.changes[k];
    }
  }

  lemma StoresSane(w: World, i: Text, e: Entry)
    requires Sane(w) && i in w.peers && e in w.issued && ShouldAccept(w.peers[i].rep, e)
    ensures i in w.newest && Sane(StoredAt(w, i, e))
  {
    assert ReplicaOk(w, i);
    StoreOk(Log(w.peers[i].rep, []), e);
    SaneKept(w, StoredAt(w, i, e), i);
  }

  lemma OfferedSane(w: World, i: Text, e: Entry)
    requires Sane(w) && i in w.peers && e in w.issued
    ensures i in w.newest && Sane(OfferedTo(w, i, e))
  {
    var start := Log(w.peers[i].rep, []);
    assert ReplicaOk(w, i);
    if ShouldAccept(start.rep, e) {
      StoresSane(w, i, e);
      AcceptGrows(start, e);
      ChainWrites(w, i, e, Store(start, e), Accept(start, e));
      WritesSane(StoredAt(w, i, e), OfferedTo(w, i, e), i, Store(start, e), Accept(start, e));
    } else {
      assert NextEntries([]) == {};
      SaneSame(w, OfferedTo(w, i, e));
    }
  }

  lemma {:induction false} OffersSane(w: World, i: Text, es: seq<Entry>)
    requires Sane(w) && i in w.peers && forall e :: e in es ==> e in w.issued
    ensures i in w.newest && Sane(OfferedAll(w, i, es))
    ensures SameReplicas(OfferedAll(w, i, es), MovedTo(w, i, OfferAll(Log(w.peers[i].rep, []), es)))
    decreases |es|
  {
    if es == [] {
      assert NextEntries([]) == {};
    } else {
      assert es[0] in es;
      OfferedSane(w, i, es[0]);
      OffersSane(OfferedTo(w, i, es[0]), i, es[1..]);
      MovedOn(w, i, es[0], es[1..]);
    }
  }

  /** Local changes and rescans. */
  lemma LocalSane(h: Hasher, play: iset<Text>, w: World, a: Action, v: World)
    requires Sane(w) && Next(h, play, w, a, v) && (a.Local? || a.FullScan?)
    ensures Sane(v)
  {
    assert ReplicaOk(w, a.node);
    var start, u := Log(w.peers[a.node].rep, []), MovedTo(w, a.node, Effect(w, a));
    StepMoves(h, play, w, a, v);
    EffectGrows(w, a);
    assert Effect(w, a).changes[0..] == Effect(w, a).changes;
    WritesSane(w, u, a.node, start, Effect(w, a));
    SaneSame(u, v);
  }

  lemma EffectGrows(w: World, a: Action)
    requires Enabled(w, a) && (a.Local? || a.FullScan?) && RepOk(w.peers[a.node].rep)
    ensures Grows(Log(w.peers[a.node].rep, []), Effect(w, a))
  {
    var start := Log(w.peers[a.node].rep, []);
    if a.Local? { EventsGrow(start, a.evs, a.rules); } else { RescanGrows(start, a.scan); }
  }

  lemma ArrivingIssued(w: World, a: Action)
    requires Sane(w) && Enabled(w, a) && a.Pull?
    ensures forall e :: e in Arriving(w, a) ==> e in w.issued
  {
    assert ReplicaOk(w, a.from);
    BatchHeld(w, a.from, a.batch, Through(Log(w.peers[a.node].rep, []), a.batch));
  }

  lemma PullSane(h: Hasher, play: iset<Text>, w: World, a: Action, v: World)
    requires Sane(w) && Next(h, play, w, a, v) && a.Pull?
    ensures Sane(v)
  {
    ArrivingIssued(w, a);
    OffersSane(w, a.node, Arriving(w, a));
    PullSame(h, play, w, a, v);
    SaneSame(OfferedAll(w, a.node, Arriving(w, a)), v);
  }

  lemma PullSame(h: Hasher, play: iset<Text>, w: World, a: Action, v: World)
    requires Next(h, play, w, a, v) && a.Pull? && a.node in w.newest
    requires
      var es := Arriving(w, a);
      SameReplicas(OfferedAll(w, a.node, es), MovedTo(w, a.node, OfferAll(Log(w.peers[a.node].rep, []), es)))
    ensures SameReplicas(OfferedAll(w, a.node, Arriving(w, a)), v)
  {
    var n := BatchPrefix(Log(w.peers[a.node].rep, []), a.batch);
    StepMoves(h, play, w, a, v);
  }

  /** The remaining steps only take tombstones away. */
  lemma MergeSane(h: Hasher, play: iset<Text>, w: World, a: Action, v: World)
    requires Sane(w) && Next(h, play, w, a, v) && (a.Announce? || a.Deliver? || a.Collect?)
    ensures Sane(v) && PartOf(v.peers[a.node].rep.entries, w.peers[a.node].rep.entries)
  {
    assert ReplicaOk(w, a.node);
    assert NextEntries([]) == {};
    MergedOk(w, a, v.peers[a.node].rep);
    SaneKept(w, v, a.node);
  }

  ghost predicate PartOf(idx: Index, whole: Index) {
    forall p :: p in idx ==> p in whole && whole[p] == idx[p]
  }

  lemma MergedOk(w: World, a: Action, r: Replica)
    requires Enabled(w, a) && RepStep(w, a, r) && RepOk(w.peers[a.node].rep)
    requires a.Announce? || a.Deliver? || a.Collect?
    ensures RepOk(r) && r.origin == w.peers[a.node].rep.origin && PartOf(r.entries, w.peers[a.node].rep.entries)
    ensures w.peers[a.node].rep.lamport <= r.lamport
  {
    var was := w.peers[a.node].rep;
    if r != was {
      var m :| r == MergeWatermark(was, m);
      MergeOk(was, m);
    }
  }

  lemma StepSane(h: Hasher, play: iset<Text>, w: World, a: Action, v: World)
    requires Sane(w) && Next(h, play, w, a, v)
    ensures Sane(v)
  {
    match a {
      case Local(_, _, _) => LocalSane(h, play, w, a, v);
      case FullScan(_, _) => LocalSane(h, play, w, a, v);
      case Pull(_, _, _) => PullSane(h, play, w, a, v);
      case Announce(_, _) => MergeSane(h, play, w, a, v);
      case Deliver(_, _) => MergeSane(h, play, w, a, v);
      case Collect(_) => MergeSane(h, play, w, a, v);
    }
  }

  /** A step that leaves something at a path does not make it older. */
  lemma StepNotOlder(h: Hasher, play: iset<Text>, w: World, a: Action, v: World, k: Text, p: Text)
    requires Sane(w) && Next(h, play, w, a, v) && Holds(w, k, p) && Holds(v, k, p)
    ensures EntryAt(w, k, p).version.AtMost(EntryAt(v, k, p).version)
  {
    if k == a.node {
      assert ReplicaOk(w, k);
      var start := Log(w.peers[k].rep, []);
      if a.Local? || a.FullScan? {
        EffectGrows(w, a);
        GrowsNotOlder(start, Effect(w, a), p);
      } else if a.Pull? {
        var n := BatchPrefix(start, a.batch);
        OfferAllNotOlder(start, Arriving(w, a), p);
      } else {
        MergeSane(h, play, w, a, v);
      }
    }
  }

  // ---------- over every trace ----------

  lemma InitSane(h: Hasher, play: iset<Text>, w: World)
    requires Init(h, play, w)
    ensures Sane(w)
  {
  }

  lemma {:induction false} TraceSane(h: Hasher, play: iset<Text>, ws: seq<World>, acts: seq<Action>, n: nat)
    requires Trace(h, play, ws, acts) && n < |ws|
    ensures Sane(ws[n])
    decreases n
  {
    if n == 0 {
      InitSane(h, play, ws[0]);
    } else {
      TraceSane(h, play, ws, acts, n - 1);
      TraceStepSane(h, play, ws, acts, n - 1);
    }
  }

  lemma TraceStepSane(h: Hasher, play: iset<Text>, ws: seq<World>, acts: seq<Action>, n: nat)
    requires Trace(h, play, ws, acts) && n < |acts| && Sane(ws[n])
    ensures Sane(ws[n + 1])
  {
    assert Step(h, play, ws, acts, n);
    StepSane(h, play, ws[n], acts[n], ws[n + 1]);
  }

  lemma IssuedGrows(h: Hasher, play: iset<Text>, ws: seq<World>, acts: seq<Action>, n: nat)
    requires Trace(h, play, ws, acts) && n < |acts|
    ensures ws[n].issued <= ws[n + 1].issued
  {
    assert Step(h, play, ws, acts, n);
  }

  lemma {:induction false} IssuedStays(h: Hasher, play: iset<Text>, ws: seq<World>, acts: seq<Action>, m: nat, n: nat)
    requires Trace(h, play, ws, acts) && m <= n < |ws|
    ensures ws[m].issued <= ws[n].issued
    decreases n
  {
    if m < n {
      IssuedStays(h, play, ws, acts, m, n - 1);
      IssuedGrows(h, play, ws, acts, n - 1);
    }
  }

  /** Two copies anywhere, at any times, with the same version are the same entry. */
  lemma VersionUniqueness(h: Hasher, play: iset<Text>, ws: seq<World>, acts: seq<Action>,
                          m: nat, i: Text, p: Text, n: nat, j: Text, q: Text)
    requires Trace(h, play, ws, acts) && m <= n < |ws|
    requires Holds(ws[m], i, p) && Holds(ws[n], j, q)
    requires EntryAt(ws[m], i, p).version == EntryAt(ws[n], j, q).version
    ensures EntryAt(ws[m], i, p) == EntryAt(ws[n], j, q)
  {
    TraceSane(h, play, ws, acts, m);
    TraceSane(h, play, ws, acts, n);
    IssuedStays(h, play, ws, acts, m, n);
    assert ReplicaOk(ws[m], i) && ReplicaOk(ws[n], j);
  }

  lemma HeldOnNotOlder(h: Hasher, play: iset<Text>, ws: seq<World>, acts: seq<Action>, n: nat, k: Text, p: Text)
    requires Trace(h, play, ws, acts) && n < |acts| && Holds(ws[n], k, p) && Holds(ws[n + 1], k, p)
    ensures EntryAt(ws[n], k, p).version.AtMost(EntryAt(ws[n + 1], k, p).version)
  {
    TraceSane(h, play, ws, acts, n);
    assert Step(h, play, ws, acts, n);
    StepNotOlder(h, play, ws[n], acts[n], ws[n + 1], k, p);
  }

  ghost predicate HoldsOn(ws: seq<World>, k: Text, p: Text, m: nat, n: nat)
    requires m <= n < |ws|
  {
    forall x :: m <= x <= n ==> Holds(ws[x], k, p)
  }

  /** As long as a node goes on holding something at a path, that does not get older. */
  lemma {:induction false} HeldNeverOlder(h: Hasher, play: iset<Text>, ws: seq<World>, acts: seq<Action>,
                                          m: nat, n: nat, k: Text, p: Text)
    requires Trace(h, play, ws, acts) && m <= n < |ws| && HoldsOn(ws, k, p, m, n)
    ensures EntryAt(ws[m], k, p).version.AtMost(EntryAt(ws[n], k, p).version)
    decreases n
  {
    if m < n {
      HeldNeverOlder(h, play, ws, acts, m, n - 1, k, p);
      HeldOnNotOlder(h, play, ws, acts, n - 1, k, p);
      VersionTransitive(EntryAt(ws[m], k, p).version, EntryAt(ws[n - 1], k, p).version, EntryAt(ws[n], k, p).version);
    }
  }
}
