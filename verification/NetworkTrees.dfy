/** What the trees of the group show, step by step, also those that a failed batch has left
    behind; and which of them are fit for an announcement or a collection. */
module NetworkTrees {
  import opened Bytes
  import opened Entries
  import opened Tree
  import opened TreeUpdate
  import opened Ignore
  import opened Replicas
  import opened ReplicaFacts
  import opened FolderStates
  import opened Convergence
  import opened Network
  import opened NetworkSteps

  // ---------- what a node holds ----------

  /** What a node knows it holds, or it is forgotten and everyone knows it. */
  lemma HeldOrForgotten(w: World, i: Text, e: Entry)
    requires Core(w) && i in w.peers && Knows(w, i, e)
    ensures Shows(w.peers[i].rep.entries, e) || (e.path !in w.peers[i].rep.entries && Everyone(w, e))
  {
    PeerFacts(w, i);
    assert HistoryOf(w, i);
    if e.path !in w.peers[i].rep.entries {
      assert Everyone(w, w.newest[i][e.path]);
      KnownBelow(w, w.newest[i][e.path], e);
    }
  }

  /** The changes are filed under the paths of their entries, which are in the index. */
  ghost predicate Recorded(changes: seq<Change>, idx: Index) {
    forall c :: c in changes ==> c.path == c.next.path && c.path in idx
  }

  lemma {:induction false} OffersRecorded(l: Log, es: seq<Entry>)
    requires RepOk(l.rep)
    ensures l.changes <= OfferAll(l, es).changes
    ensures Recorded(OfferAll(l, es).changes[|l.changes|..], OfferAll(l, es).rep.entries)
    decreases |es|
  {
    if es != [] {
      var m, r := Offer(l, es[0]), OfferAll(l, es);
      OfferOk(l, es[0]);
      OfferRecorded(l, es[0]);
      OffersRecorded(m, es[1..]);
      OffersHold(m, es[1..]);
      assert r.changes[|l.changes|..] == m.changes[|l.changes|..] + r.changes[|m.changes|..];
    }
  }

  lemma OfferRecorded(l: Log, e: Entry)
    requires RepOk(l.rep)
    ensures l.changes <= Offer(l, e).changes
    ensures Recorded(Offer(l, e).changes[|l.changes|..], Offer(l, e).rep.entries)
  {
    if ShouldAccept(l.rep, e) {
      var s, m := Store(l, e), Accept(l, e);
      AcceptGrows(l, e);
      assert m.changes[|l.changes|..] == [s.changes[|l.changes|]] + m.changes[|s.changes|..];
      GrowsRecorded(s, m);
    }
  }

  lemma GrowsRecorded(a: Log, b: Log)
    requires Grows(a, b)
    ensures Recorded(b.changes[|a.changes|..], b.rep.entries)
  {
    forall c | c in b.changes[|a.changes|..] ensures c.path == c.next.path && c.path in b.rep.entries {
      var k :| 0 <= k < |b.changes[|a.changes|..]| && b.changes[|a.changes|..][k] == c;
      assert Issued(a, b, |a.changes| + k);
    }
  }

  /** Only a step that derives the tree anew takes paths away. */
  lemma PathsStay(h: Hasher, play: iset<Text>, w: World, a: Action, v: World)
    requires Core(w) && Next(h, play, w, a, v) && !Rebuilds(w, a, v.peers[a.node].rep.entries)
    ensures w.peers[a.node].rep.entries.Keys <= v.peers[a.node].rep.entries.Keys
  {
    PeerFacts(w, a.node);
    var start := Log(w.peers[a.node].rep, []);
    if a.Local? {
      EventsGrow(start, a.evs, a.rules);
    } else if a.Pull? {
      PullOffers(h, play, w, a, v);
      OffersHold(start, Arriving(w, a));
    }
  }

  // ---------- what trees show ----------

  /** What a tree shows after a step it showed before, or the node holds it now. */
  lemma ShownSources(w: World, a: Action, after: Index, p: Text)
    requires a.node in w.peers && a.node in w.shown && p in ShownAfter(w, a, after)
    ensures
      var s := ShownAfter(w, a, after);
      (p in w.shown[a.node] && s[p] == w.shown[a.node][p]) || (p in after && s[p] == after[p])
  {
    MixedAt(w.peers[a.node].tree.nodes.Keys, w.shown[a.node], after, PathsOf(Effect(w, a).changes), p);
  }

  lemma KnownKept(h: Hasher, play: iset<Text>, w: World, a: Action, v: World)
    requires Core(v) && Next(h, play, w, a, v) && Advances(w, v) && ShownKnown(w, a.node)
    ensures ShownKnown(v, a.node)
  {
    var i := a.node;
    PeerFacts(v, i);
    forall p | p in v.shown[i] ensures v.shown[i][p] in v.issued && Knows(v, i, v.shown[i][p]) {
      ShownSources(w, a, v.peers[i].rep.entries, p);
      if p in w.shown[i] && v.shown[i][p] == w.shown[i][p] {
        KnowsKept(w, v, i, w.shown[i][p]);
      } else {
        assert HistoryOf(v, i);
      }
    }
  }

  /** What the step writes is at a path the tree is updated for. */
  lemma WrittenTouched(changes: seq<Change>, idx: Index, e: Entry)
    requires e in NextEntries(changes) && Recorded(changes, idx)
    ensures e.path in PathsOf(changes)
  {
    var c :| c in changes && c.next == e;
    var k :| 0 <= k < |changes| && changes[k] == c;
    assert PathsOf(changes)[k] == e.path;
  }

  lemma EventsRecorded(r: Replica, evs: seq<Event>, rules: seq<Rule>)
    requires IndexOk(r.entries) && forall ev :: ev in evs ==> EventOk(ev)
    ensures Recorded(ApplyEvents(Log(r, []), evs, rules).changes, ApplyEvents(Log(r, []), evs, rules).rep.entries)
  {
    var a, b := Log(r, []), ApplyEvents(Log(r, []), evs, rules);
    EventsGrow(a, evs, rules);
    forall c | c in b.changes ensures c.path == c.next.path && c.path in b.rep.entries {
      var k :| 0 <= k < |b.changes| && b.changes[k] == c;
      assert Issued(a, b, k);
    }
  }

  lemma EffectRecorded(h: Hasher, play: iset<Text>, w: World, a: Action, v: World)
    requires Core(w) && Next(h, play, w, a, v) && (a.Local? || a.Pull?)
    ensures Recorded(Effect(w, a).changes, v.peers[a.node].rep.entries)
  {
    PeerFacts(w, a.node);
    if a.Local? {
      EventsRecorded(w.peers[a.node].rep, a.evs, a.rules);
    } else {
      PullOffers(h, play, w, a, v);
      OffersRecorded(Log(w.peers[a.node].rep, []), Arriving(w, a));
      assert Effect(w, a).changes[0..] == Effect(w, a).changes;
    }
  }

  /** An update brings the tree up to date at `p`, or leaves it as it was there; at the paths
      of what was just written it does the former. */
  lemma UpdateShows(h: Hasher, play: iset<Text>, w: World, a: Action, v: World, e: Entry)
    requires Core(w) && Next(h, play, w, a, v) && Updates(w, a)
    ensures
      || SameAt(v.shown[a.node], v.peers[a.node].rep.entries, e.path)
      || (SameAt(v.shown[a.node], w.shown[a.node], e.path) && e !in NextEntries(Effect(w, a).changes))
  {
    var i, changed := a.node, PathsOf(Effect(w, a).changes);
    var keys, after := w.peers[i].tree.nodes.Keys, v.peers[i].rep.entries;
    MixedAt(keys, w.shown[i], after, changed, e.path);
    if e in NextEntries(Effect(w, a).changes) {
      EffectRecorded(h, play, w, a, v);
      WrittenTouched(Effect(w, a).changes, after, e);
      ChangedTouched(keys, after, changed, e.path);
    }
  }

  /** After an update the tree shows `e`, or everyone knows `e`, or `e` was hidden before. */
  lemma UpdateReflects(h: Hasher, play: iset<Text>, w: World, a: Action, v: World, e: Entry)
    requires Core(w) && Core(v) && Next(h, play, w, a, v) && Advances(w, v) && Updates(w, a)
    requires OwnShown(w, a.node) && WroteItself(v, a.node, e)
    ensures e in v.hidden[a.node] || Reflected(v, v.shown[a.node], e)
  {
    var i := a.node;
    UpdateShows(h, play, w, a, v, e);
    if SameAt(v.shown[i], v.peers[i].rep.entries, e.path) {
      HeldOrForgotten(v, i, e);
    } else {
      assert WroteItself(w, i, e);
      if e !in w.hidden[i] && Everyone(w, e) { EveryoneKept(w, v, e); }
    }
  }

  lemma OwnKept(h: Hasher, play: iset<Text>, w: World, a: Action, v: World, e: Entry)
    requires Core(w) && Core(v) && Next(h, play, w, a, v) && Advances(w, v)
    requires OwnShown(w, a.node) && HiddenHeld(w, a.node) && WroteItself(v, a.node, e)
    ensures e in v.hidden[a.node] || Reflected(v, v.shown[a.node], e)
  {
    var i := a.node;
    if Rebuilds(w, a, v.peers[i].rep.entries) {
      HeldOrForgotten(v, i, e);
    } else if Updates(w, a) {
      UpdateReflects(h, play, w, a, v, e);
    } else if e in w.issued {
      assert WroteItself(w, i, e);
      if e !in w.hidden[i] && Everyone(w, e) { EveryoneKept(w, v, e); }
    }
  }

  lemma ShownInTime(w: World, i: Text, p: Text)
    requires Core(w) && i in w.peers && i in w.shown && ShownKnown(w, i) && p in w.shown[i] && w.shown[i][p].path == p
    ensures w.shown[i][p].version.lamport <= w.peers[i].rep.lamport
  {
    PeerFacts(w, i);
    assert HistoryOf(w, i) && Knows(w, i, w.shown[i][p]);
  }

  lemma HiddenKept(h: Hasher, play: iset<Text>, w: World, a: Action, v: World, e: Entry)
    requires Core(w) && Core(v) && Next(h, play, w, a, v) && Advances(w, v)
    requires ShownKnown(w, a.node) && HiddenHeld(w, a.node) && IndexOk(w.shown[a.node]) && e in v.hidden[a.node]
    ensures WroteItself(v, a.node, e) && !Shows(v.shown[a.node], e) && Shows(v.peers[a.node].rep.entries, e)
  {
    var i := a.node;
    PathsStay(h, play, w, a, v);
    if e in w.hidden[i] { OwnOldHeld(w, v, i, e); } else { BurialHeld(h, play, w, a, v, e); }
  }

  lemma BurialHeld(h: Hasher, play: iset<Text>, w: World, a: Action, v: World, e: Entry)
    requires Core(w) && Core(v) && Next(h, play, w, a, v) && Fails(w, a) && e in Burials(w, a)
    requires ShownKnown(w, a.node) && IndexOk(w.shown[a.node])
    ensures WroteItself(v, a.node, e) && !Shows(w.shown[a.node], e) && Shows(v.peers[a.node].rep.entries, e)
  {
    EffectRecorded(h, play, w, a, v);
    assert e in v.issued;
    var c :| c in Effect(w, a).changes && c.next == e;
    HeldOrForgotten(v, a.node, e);
    NotShownYet(w, a.node, e);
  }

  lemma NotShownYet(w: World, i: Text, e: Entry)
    requires Core(w) && i in w.peers && i in w.shown && ShownKnown(w, i) && IndexOk(w.shown[i])
    requires w.peers[i].rep.lamport < e.version.lamport
    ensures !Shows(w.shown[i], e)
  {
    if e.path in w.shown[i] { ShownInTime(w, i, e.path); }
  }

  /** What a node holds it goes on holding where no path is taken away. */
  lemma OwnOldHeld(w: World, v: World, i: Text, e: Entry)
    requires Core(w) && Core(v) && Advances(w, v) && i in w.peers && Shows(w.peers[i].rep.entries, e)
    requires w.peers[i].rep.entries.Keys <= v.peers[i].rep.entries.Keys
    ensures Shows(v.peers[i].rep.entries, e)
  {
    PeerFacts(w, i);
    assert HistoryOf(w, i);
    assert Knows(w, i, e);
    KnowsKept(w, v, i, e);
    HeldOrForgotten(v, i, e);
  }

  lemma StepShown(h: Hasher, play: iset<Text>, w: World, a: Action, v: World)
    requires Core(w) && Core(v) && Next(h, play, w, a, v) && Advances(w, v) && ShownOk(h, play, w, a.node)
    ensures ShownOk(h, play, v, a.node)
  {
    KnownKept(h, play, w, a, v);
    forall e | WroteItself(v, a.node, e) ensures e in v.hidden[a.node] || Reflected(v, v.shown[a.node], e) {
      OwnKept(h, play, w, a, v, e);
    }
    forall e | e in v.hidden[a.node]
      ensures WroteItself(v, a.node, e) && !Shows(v.shown[a.node], e) && Shows(v.peers[a.node].rep.entries, e)
    {
      HiddenKept(h, play, w, a, v, e);
    }
  }

  lemma OthersShown(h: Hasher, play: iset<Text>, w: World, a: Action, v: World, k: Text)
    requires Core(w) && Core(v) && Next(h, play, w, a, v) && Advances(w, v) && k in w.peers && k != a.node
    requires ShownOk(h, play, w, k)
    ensures ShownOk(h, play, v, k)
  {
    forall p | p in v.shown[k] ensures v.shown[k][p] in v.issued && Knows(v, k, v.shown[k][p]) {
      KnowsKept(w, v, k, w.shown[k][p]);
    }
    forall e | WroteItself(v, k, e) ensures e in v.hidden[k] || Reflected(v, v.shown[k], e) {
      OthersWrite(h, play, w, a, v, k, e);
      assert WroteItself(w, k, e);
      if e !in w.hidden[k] && Everyone(w, e) { EveryoneKept(w, v, e); }
    }
  }

  /** A node writes under its own name only. */
  lemma OthersWrite(h: Hasher, play: iset<Text>, w: World, a: Action, v: World, k: Text, e: Entry)
    requires Core(w) && Core(v) && Next(h, play, w, a, v) && Advances(w, v) && k in w.peers && k != a.node
    requires WroteItself(v, k, e)
    ensures e in w.issued
  {
    assert v.peers[k] == w.peers[k];
  }

  lemma StepTrees(h: Hasher, play: iset<Text>, w: World, a: Action, v: World)
    requires Core(w) && TreesOk(h, play, w) && Next(h, play, w, a, v) && Core(v) && Advances(w, v)
    ensures TreesOk(h, play, v)
  {
    ShownKeys(h, play, w, a, v);
    forall k | k in v.peers ensures ShownOk(h, play, v, k) { NodeShown(h, play, w, a, v, k); }
  }

  lemma ShownKeys(h: Hasher, play: iset<Text>, w: World, a: Action, v: World)
    requires Next(h, play, w, a, v)
    ensures v.shown.Keys == v.hidden.Keys == v.peers.Keys
  {
    assert v.shown.Keys == w.shown.Keys + {a.node} && v.hidden.Keys == w.hidden.Keys + {a.node};
  }

  lemma NodeShown(h: Hasher, play: iset<Text>, w: World, a: Action, v: World, k: Text)
    requires Core(w) && TreesOk(h, play, w) && Next(h, play, w, a, v) && Core(v) && Advances(w, v) && k in v.peers
    ensures ShownOk(h, play, v, k)
  {
    assert ShownOk(h, play, w, k);
    if k == a.node { StepShown(h, play, w, a, v); } else { OthersShown(h, play, w, a, v, k); }
  }

  // ---------- which trees are fit for use ----------

  /** A tree that shows the index hides nothing. */
  lemma FreshIsFit(h: Hasher, play: iset<Text>, w: World, i: Text)
    requires TreesOk(h, play, w) && i in w.peers && Fresh(w, i)
    ensures w.hidden[i] == {} && Candid(w, i) && GravesShown(w, i)
  {
    assert ShownOk(h, play, w, i);
    assert HiddenHeld(w, i);
  }

  /** A tree stays candid, also through failing batches; only an update of a tree that hides
      something can end it. So a tree that a failed batch has left behind may be announced as
      long as nothing else has changed it. */
  lemma CandidKept(h: Hasher, play: iset<Text>, w: World, a: Action, v: World, k: Text)
    requires Core(w) && TreesOk(h, play, w) && Next(h, play, w, a, v) && k in w.peers && Candid(w, k)
    requires a.node == k && Updates(w, a) ==> w.hidden[k] == {}
    ensures k in v.shown && k in v.hidden && Candid(v, k)
  {
    ShownKeys(h, play, w, a, v);
    if a.node == k && Fails(w, a) {
      assert ShownOk(h, play, w, k);
      forall e | e in v.hidden[k] ensures !Upto(v.shown[k], k, e.version.lamport) {
        if e !in w.hidden[k] { NotUpto(w, k, e); }
      }
    }
  }

  lemma NotUpto(w: World, k: Text, e: Entry)
    requires Core(w) && k in w.peers && k in w.shown && ShownKnown(w, k) && IndexOk(w.shown[k])
    requires w.peers[k].rep.lamport < e.version.lamport
    ensures !Upto(w.shown[k], k, e.version.lamport)
  {
    forall p | p in w.shown[k] ensures w.shown[k][p].version.lamport < e.version.lamport { ShownInTime(w, k, p); }
  }

  /** A failing batch that brings only live entries and buries nothing leaves a tree that
      shows every tombstone, and hides nothing more. */
  lemma HarmlessFailure(h: Hasher, play: iset<Text>, w: World, a: Action, v: World)
    requires Core(w) && Core(v) && TreesOk(h, play, w) && Next(h, play, w, a, v) && Fails(w, a)
    requires GravesShown(w, a.node) && Burials(w, a) == {} && forall f :: f in a.batch ==> Live(f.entry)
    ensures a.node in v.shown && a.node in v.hidden
    ensures GravesShown(v, a.node) && v.hidden[a.node] == w.hidden[a.node]
  {
    var i := a.node;
    ShownKeys(h, play, w, a, v);
    BurialFree(h, play, w, a, v);
    forall p | p in v.peers[i].rep.entries && !Live(v.peers[i].rep.entries[p])
      ensures p in w.shown[i] && w.shown[i][p] == v.peers[i].rep.entries[p]
    {
      OldGrave(h, play, w, a, v, p);
    }
  }

  lemma BurialFree(h: Hasher, play: iset<Text>, w: World, a: Action, v: World)
    requires Next(h, play, w, a, v) && Fails(w, a) && Burials(w, a) == {}
    ensures v.shown[a.node] == w.shown[a.node] && v.hidden[a.node] == w.hidden[a.node]
  {
  }

  lemma OldGrave(h: Hasher, play: iset<Text>, w: World, a: Action, v: World, p: Text)
    requires Core(w) && Core(v) && Next(h, play, w, a, v) && Fails(w, a)
    requires Burials(w, a) == {} && forall f :: f in a.batch ==> Live(f.entry)
    requires p in v.peers[a.node].rep.entries && !Live(v.peers[a.node].rep.entries[p])
    ensures p in w.peers[a.node].rep.entries && v.peers[a.node].rep.entries[p] == w.peers[a.node].rep.entries[p]
  {
    var e := v.peers[a.node].rep.entries[p];
    EntrySources(h, play, w, a, v, p);
    ArrivingLive(w, a, e);
    PeerFacts(v, a.node);
    if e.version.origin == a.node && w.peers[a.node].rep.lamport < e.version.lamport {
      LateIsBurial(h, play, w, a, v, e);
    }
  }

  lemma EntrySources(h: Hasher, play: iset<Text>, w: World, a: Action, v: World, p: Text)
    requires Core(w) && Next(h, play, w, a, v) && a.Pull? && p in v.peers[a.node].rep.entries
    ensures
      var e := v.peers[a.node].rep.entries[p];
      || (p in w.peers[a.node].rep.entries && w.peers[a.node].rep.entries[p] == e)
      || e in Arriving(w, a)
      || (e.version.origin == a.node && w.peers[a.node].rep.lamport < e.version.lamport)
  {
    PeerFacts(w, a.node);
    PullOffers(h, play, w, a, v);
    PullSources(Log(w.peers[a.node].rep, []), Arriving(w, a), p);
  }

  lemma LateIsBurial(h: Hasher, play: iset<Text>, w: World, a: Action, v: World, e: Entry)
    requires IssuedOk(w) && Next(h, play, w, a, v) && WroteItself(v, a.node, e)
    requires w.peers[a.node].rep.lamport < e.version.lamport
    ensures e in Burials(w, a)
  {
    assert e !in w.issued;
  }

  lemma ArrivingLive(w: World, a: Action, e: Entry)
    requires a.Pull? && a.node in w.peers && forall f :: f in a.batch ==> Live(f.entry)
    ensures e in Arriving(w, a) ==> Live(e)
  {
    if e in Arriving(w, a) {
      var n := Through(Log(w.peers[a.node].rep, []), a.batch);
      var k :| 0 <= k < n && a.batch[..n][k].entry == e;
      assert a.batch[k] in a.batch;
    }
  }
}
