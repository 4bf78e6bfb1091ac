/** Laws of the replica operations that hold for every replica: what a local
    change and a remote entry may do, and that the node invariant survives both. */
module ReplicaFacts {
  import opened Wrappers
  import opened Bytes
  import opened Paths
  import opened Entries
  import opened Tree
  import opened Ignore
  import opened Replicas

  // ---------- what any sequence of local writes does ----------

  /** The `k`-th change was issued at clock `a.lamport + 1 + (k - |a.changes|)`, and the
      index holds it or something this node issued later. */
  ghost predicate Issued(a: Log, b: Log, k: nat)
    requires |a.changes| <= k < |b.changes|
  {
    var c := b.changes[k];
    && c.next.version == Version(a.rep.lamport + 1 + k - |a.changes|, a.rep.origin)
    && c.path == c.next.path && c.path in b.rep.entries
    && b.rep.entries[c.path].version.origin == a.rep.origin
    && c.next.version.lamport <= b.rep.entries[c.path].version.lamport <= b.rep.lamport
  }

  /** The entry at `p` is the old one or one of the new changes. */
  ghost predicate OldOrIssued(a: Log, b: Log, p: Text)
    requires p in b.rep.entries && |a.changes| <= |b.changes|
  {
    || (p in a.rep.entries && a.rep.entries[p] == b.rep.entries[p])
    || exists k :: |a.changes| <= k < |b.changes| && b.changes[k].path == p && b.changes[k].next == b.rep.entries[p]
  }

  /** `b` extends `a` by local writes only: each new change has its own clock
      value, in order, and nothing else in the index moves. */
  ghost predicate Grows(a: Log, b: Log) {
    && b.rep.origin == a.rep.origin && b.rep.watermark == a.rep.watermark
    && a.changes <= b.changes
    && b.rep.lamport == a.rep.lamport + |b.changes| - |a.changes|
    && (forall k {:trigger Issued(a, b, k)} :: |a.changes| <= k < |b.changes| ==> Issued(a, b, k))
    && (forall p :: p in a.rep.entries ==> p in b.rep.entries)
    && (forall p {:trigger OldOrIssued(a, b, p)} :: p in b.rep.entries ==> OldOrIssued(a, b, p))
    && (IndexOk(a.rep.entries) ==> IndexOk(b.rep.entries))
  }

  lemma GrowsReflexive(a: Log)
    ensures Grows(a, a)
  {
  }

  lemma GrowsTransitive(a: Log, b: Log, c: Log)
    requires Grows(a, b) && Grows(b, c)
    ensures Grows(a, c)
  {
    forall k | |a.changes| <= k < |c.changes| ensures Issued(a, c, k) {
      if k < |b.changes| {
        assert Issued(a, b, k);
        assert c.changes[k] == b.changes[k];
        var p := b.changes[k].path;
        assert OldOrIssued(b, c, p);
        if j :| |b.changes| <= j < |c.changes| && c.changes[j].path == p && c.changes[j].next == c.rep.entries[p] {
          assert Issued(b, c, j);
        }
      } else {
        assert Issued(b, c, k);
      }
    }
    forall p | p in c.rep.entries ensures OldOrIssued(a, c, p) {
      assert OldOrIssued(b, c, p);
      if p in b.rep.entries && b.rep.entries[p] == c.rep.entries[p] {
        assert OldOrIssued(a, b, p);
        if k :| |a.changes| <= k < |b.changes| && b.changes[k].path == p && b.changes[k].next == b.rep.entries[p] {
          assert c.changes[k] == b.changes[k];
        }
      }
    }
  }

  lemma MintGrows(l: Log, e: Entry)
    requires Clean(e.path)
    ensures Grows(l, Mint(l, e))
  {
    var b := Mint(l, e);
    assert b.changes[|l.changes|].next == b.rep.entries[e.path];
    forall p | p in b.rep.entries ensures OldOrIssued(l, b, p) {}
    forall k | |l.changes| <= k < |b.changes| ensures Issued(l, b, k) {}
  }

  lemma {:induction false} TombstoneAllGrows(l: Log, ps: seq<Text>)
    requires forall p :: p in ps ==> Clean(p)
    ensures Grows(l, TombstoneAll(l, ps))
    decreases |ps|
  {
    if ps == [] {
      GrowsReflexive(l);
    } else {
      var m := TombstoneOne(l, ps[0]);
      if m == l { GrowsReflexive(l); } else {
        MintGrows(l, TombstoneOf(ps[0], l.rep.entries[ps[0]], NextVersion(l.rep)));
      }
      TombstoneAllGrows(m, ps[1..]);
      GrowsTransitive(l, m, TombstoneAll(l, ps));
    }
  }

  lemma TombstoneBelowGrows(l: Log, p: Text)
    requires IndexOk(l.rep.entries)
    ensures Grows(l, TombstoneBelow(l, p)) && Grows(l, Remove(l, p))
  {
    TombstoneAllGrows(l, StrictlyBelow(l.rep.entries, p));
    TombstoneAllGrows(l, AtOrBelow(l.rep.entries, p));
  }

  lemma ObserveGrows(l: Log, live: Entry)
    requires IndexOk(l.rep.entries) && Clean(live.path)
    ensures Grows(l, Observe(l, live))
  {
    GrowsReflexive(l);
    MintGrows(l, live);
    var m := Mint(l, live);
    TombstoneBelowGrows(m, live.path);
    GrowsTransitive(l, m, TombstoneBelow(m, live.path));
  }

  lemma {:induction false} ObserveAllGrows(l: Log, lives: seq<Entry>)
    requires IndexOk(l.rep.entries) && forall e :: e in lives ==> Clean(e.path)
    ensures Grows(l, ObserveAll(l, lives))
    decreases |lives|
  {
    if lives == [] { GrowsReflexive(l); } else {
      var m := Observe(l, lives[0]);
      ObserveGrows(l, lives[0]);
      ObserveAllGrows(m, lives[1..]);
      GrowsTransitive(l, m, ObserveAll(l, lives));
    }
  }

  lemma ListedClean(idx: Index)
    requires IndexOk(idx)
    ensures forall e :: e in Listed(idx) ==> e.path in idx && idx[e.path] == e && Clean(e.path)
  {
    forall e | e in Listed(idx) ensures e.path in idx && idx[e.path] == e && Clean(e.path) {
      var i :| 0 <= i < |Listed(idx)| && Listed(idx)[i] == e;
      assert Sorted(idx.Keys)[i] in idx;
    }
  }

  lemma RescanGrows(l: Log, scan: Scan)
    requires IndexOk(l.rep.entries) && IndexOk(scan.found)
    ensures Grows(l, Rescan(l, scan))
  {
    var seen := ObserveAll(l, Listed(scan.found));
    ListedClean(scan.found);
    ObserveAllGrows(l, Listed(scan.found));
    TombstoneAllGrows(seen, Unseen(scan, Sorted(seen.rep.entries.Keys)));
    GrowsTransitive(l, seen, Rescan(l, scan));
  }

  lemma EventGrows(l: Log, ev: Event, rules: seq<Rule>)
    requires IndexOk(l.rep.entries) && EventOk(ev)
    ensures Grows(l, ApplyEvent(l, ev, rules))
  {
    GrowsReflexive(l);
    if !ShouldIgnore(EventPath(ev), rules) {
      match ev {
        case Gone(p) => TombstoneBelowGrows(l, p);
        case Leaf(live) => ObserveGrows(l, live);
        case Folder(live, contents) =>
          ObserveGrows(l, live);
          var m := Observe(l, live);
          ListedClean(contents);
          ObserveAllGrows(m, Listed(contents));
          GrowsTransitive(l, m, ObserveAll(m, Listed(contents)));
        case Skipped(_) =>
      }
    }
  }

  lemma {:induction false} EventsGrow(l: Log, evs: seq<Event>, rules: seq<Rule>)
    requires IndexOk(l.rep.entries) && forall ev :: ev in evs ==> EventOk(ev)
    ensures Grows(l, ApplyEvents(l, evs, rules))
    decreases |evs|
  {
    if evs == [] { GrowsReflexive(l); } else {
      var m := ApplyEvent(l, evs[0], rules);
      EventGrows(l, evs[0], rules);
      EventsGrow(m, evs[1..], rules);
      GrowsTransitive(l, m, ApplyEvents(l, evs, rules));
    }
  }

  lemma AllGrows(l: Log, evs: seq<Event>, rules: seq<Rule>, scan: Scan)
    requires IndexOk(l.rep.entries) && IndexOk(scan.found) && forall ev :: ev in evs ==> EventOk(ev)
    ensures Grows(l, ApplyAll(l, evs, rules, scan))
  {
    if RulesTouched(evs) { RescanGrows(l, scan); } else { EventsGrow(l, evs, rules); }
  }

  /** Local writes keep the node invariant. */
  lemma GrowsOk(a: Log, b: Log)
    requires RepOk(a.rep) && Grows(a, b)
    ensures RepOk(b.rep)
  {
    forall p | p in b.rep.entries
      ensures b.rep.entries[p].version.lamport <= b.rep.lamport
      ensures !DeadTombstone(b.rep.watermark, b.rep.entries[p])
    {
      assert OldOrIssued(a, b, p);
      if k :| |a.changes| <= k < |b.changes| && b.changes[k].path == p && b.changes[k].next == b.rep.entries[p] {
        assert Issued(a, b, k);
      }
    }
  }

  // ---------- remote entries ----------

  lemma {:induction false} JoinClean(cs: seq<Text>)
    requires cs != [] && forall c :: c in cs ==> c != [] && SLASH !in c
    ensures Clean(JoinWith(cs, SLASH))
  {
    assert cs[0] in cs;
    if |cs| > 1 {
      assert forall c :: c in cs[1..] ==> c in cs;
      JoinClean(cs[1..]);
      var rest := JoinWith(cs[1..], SLASH);
      var p := cs[0] + [SLASH] + rest;
      assert p[|p| - 1] == rest[|rest| - 1];
      forall i | 0 < i < |p| ensures p[i - 1] != SLASH || p[i] != SLASH {
        if i > |cs[0]| + 1 {
          assert p[i] == rest[i - |cs[0]| - 1] && p[i - 1] == rest[i - 1 - |cs[0]| - 1];
        } else if i == |cs[0]| + 1 {
          assert p[i] == rest[0];
        }
      }
    }
  }

  lemma ValidIsClean(p: Text)
    requires ValidRemotePath(p)
    ensures Clean(p)
  {
    JoinSplit(p, SLASH);
    JoinClean(Split(p, SLASH));
  }

  lemma StoreOk(l: Log, e: Entry)
    requires RepOk(l.rep) && ShouldAccept(l.rep, e)
    ensures RepOk(Store(l, e).rep)
  {
    ValidIsClean(e.path);
  }

  lemma AcceptGrows(l: Log, e: Entry)
    requires RepOk(l.rep) && ShouldAccept(l.rep, e)
    ensures Grows(Store(l, e), Accept(l, e))
  {
    StoreOk(l, e);
    GrowsReflexive(Store(l, e));
    TombstoneBelowGrows(Store(l, e), e.path);
  }

  /** Taking or leaving a remote entry keeps the node invariant. */
  lemma OfferOk(l: Log, e: Entry)
    requires RepOk(l.rep)
    ensures RepOk(Offer(l, e).rep)
  {
    if ShouldAccept(l.rep, e) {
      StoreOk(l, e);
      AcceptGrows(l, e);
      GrowsOk(Store(l, e), Accept(l, e));
    }
  }

  /** The entry `a` has at `p` is still there in `b`, or a newer one is. */
  ghost predicate NotOlder(a: Index, b: Index, p: Text) {
    p in a ==> p in b && a[p].version.AtMost(b[p].version)
  }

  lemma GrowsNotOlder(a: Log, b: Log, p: Text)
    requires RepOk(a.rep) && Grows(a, b)
    ensures NotOlder(a.rep.entries, b.rep.entries, p)
  {
    if p in a.rep.entries {
      assert OldOrIssued(a, b, p);
      if k :| |a.changes| <= k < |b.changes| && b.changes[k].path == p && b.changes[k].next == b.rep.entries[p] {
        assert Issued(a, b, k);
      }
    }
  }

  lemma NotOlderTransitive(a: Index, b: Index, c: Index, p: Text)
    requires NotOlder(a, b, p) && NotOlder(b, c, p)
    ensures NotOlder(a, c, p)
  {
    if p in a { VersionTransitive(a[p].version, b[p].version, c[p].version); }
  }

  /** Offers never make any path older. */
  lemma OfferNotOlder(l: Log, e: Entry, p: Text)
    requires RepOk(l.rep)
    ensures NotOlder(l.rep.entries, Offer(l, e).rep.entries, p)
  {
    if ShouldAccept(l.rep, e) {
      StoreOk(l, e);
      AcceptGrows(l, e);
      GrowsNotOlder(Store(l, e), Accept(l, e), p);
      NotOlderTransitive(l.rep.entries, Store(l, e).rep.entries, Accept(l, e).rep.entries, p);
    }
  }

  lemma {:induction false} OfferAllNotOlder(l: Log, es: seq<Entry>, p: Text)
    requires RepOk(l.rep)
    ensures RepOk(OfferAll(l, es).rep)
    ensures NotOlder(l.rep.entries, OfferAll(l, es).rep.entries, p)
    ensures OfferAll(l, es).rep.watermark == l.rep.watermark
    ensures OfferAll(l, es).rep.origin == l.rep.origin
    decreases |es|
  {
    if es != [] {
      var m := Offer(l, es[0]);
      OfferOk(l, es[0]);
      OfferNotOlder(l, es[0], p);
      if ShouldAccept(l.rep, es[0]) { AcceptGrows(l, es[0]); }
      OfferAllNotOlder(m, es[1..], p);
      NotOlderTransitive(l.rep.entries, m.rep.entries, OfferAll(l, es).rep.entries, p);
    }
  }

  lemma {:induction false} OfferAppend(l: Log, a: seq<Entry>, b: seq<Entry>)
    ensures OfferAll(l, a + b) == OfferAll(OfferAll(l, a), b)
    decreases |a|
  {
    if a == [] {
      assert a + b == b;
    } else {
      assert (a + b)[0] == a[0] && (a + b)[1..] == a[1..] + b;
      OfferAppend(Offer(l, a[0]), a[1..], b);
    }
  }

  // ---------- batches ----------

  /** A batch that succeeds is the same as offering its entries one at a time. */
  lemma {:induction false} BatchIsOffers(l: Log, batch: seq<Fetched>)
    requires ApplyBatch(l, batch).failed.None?
    ensures ApplyBatch(l, batch).log == OfferAll(l, EntriesIn(batch))
    decreases |batch|
  {
    if batch != [] {
      BatchIsOffers(ApplyOne(l, batch[0]).value, batch[1..]);
      assert EntriesIn(batch)[1..] == EntriesIn(batch[1..]);
    }
  }

  /** However a batch ends, the entries that got through form a prefix of it. */
  lemma {:induction false} BatchPrefix(l: Log, batch: seq<Fetched>) returns (n: nat)
    ensures n == Through(l, batch) <= |batch|
    ensures ApplyBatch(l, batch).log == OfferAll(l, EntriesIn(batch[..n]))
    ensures ApplyBatch(l, batch).failed.None? <==> n == |batch|
    ensures n < |batch| ==> ApplyOne(ApplyBatch(l, batch).log, batch[n]) == Err(ApplyBatch(l, batch).failed.value)
    decreases |batch|
  {
    if batch == [] {
      n := 0;
    } else {
      match ApplyOne(l, batch[0])
      case Err(_) =>
        n := 0;
      case Ok(next) =>
        var m := BatchPrefix(next, batch[1..]);
        n := m + 1;
        assert EntriesIn(batch[..n])[0] == batch[0].entry;
        assert EntriesIn(batch[..n])[1..] == EntriesIn(batch[1..][..m]);
    }
  }

  /** What gets through has a valid path. */
  lemma {:induction false} ThroughValid(l: Log, batch: seq<Fetched>, e: Entry)
    requires e in EntriesIn(batch[..Through(l, batch)])
    ensures ValidRemotePath(e.path)
    decreases |batch|
  {
    var n := Through(l, batch);
    var k :| 0 <= k < n && batch[..n][k].entry == e;
    match ApplyOne(l, batch[0])
    case Ok(next) =>
      if k > 0 {
        assert batch[1..][..n - 1][k - 1] == batch[k];
        assert EntriesIn(batch[1..][..n - 1])[k - 1] == e;
        ThroughValid(next, batch[1..], e);
      }
  }

  /** A remote entry comes with what it takes to install it. */
  predicate Fit(f: Fetched) {
    && (f.entry.kind == File ==> f.hasTmp)
    && (f.entry.kind == Symlink ==> f.entry.symlinkTarget.Some? && ValidTarget(f.entry.symlinkTarget.value))
    && f.installs
  }

  /** However a batch ends, what it has stored is as if only fit entries had been offered. */
  lemma {:induction false} BatchTaken(l: Log, batch: seq<Fetched>) returns (taken: seq<Fetched>)
    ensures forall f :: f in taken ==> f in batch && Fit(f)
    ensures ApplyBatch(l, batch).log == OfferAll(l, EntriesIn(taken))
    decreases |batch|
  {
    taken := [];
    if batch != [] && ApplyOne(l, batch[0]).Ok? {
      taken := BatchTaken(ApplyOne(l, batch[0]).value, batch[1..]);
      if ShouldAccept(l.rep, batch[0].entry) {
        taken := [batch[0]] + taken;
        assert EntriesIn(taken)[1..] == EntriesIn(taken[1..]);
      }
    }
  }

  /** A batch that fails has been stopped by an entry with a path that is not allowed or by
      one that is not fit; a plain refusal of the filesystem is told apart from the rest. */
  lemma BatchStopped(l: Log, batch: seq<Fetched>) returns (f: Fetched)
    requires ApplyBatch(l, batch).failed.Some?
    ensures f in batch && (!ValidRemotePath(f.entry.path) || !Fit(f))
    ensures
      if ValidRemotePath(f.entry.path) && Fit(f.(installs := true))
      then ApplyBatch(l, batch).failed.value == Storage
      else ApplyBatch(l, batch).failed.value == InvalidInput
  {
    var n := BatchPrefix(l, batch);
    f := batch[n];
  }

  // ---------- change lists only grow at the end ----------

  function Shift(c: seq<Change>, l: Log): Log {
    Log(l.rep, c + l.changes)
  }

  lemma ShiftMint(c: seq<Change>, l: Log, e: Entry)
    ensures Mint(Shift(c, l), e) == Shift(c, Mint(l, e))
  {
  }

  lemma {:induction false} ShiftTombstones(c: seq<Change>, l: Log, ps: seq<Text>)
    ensures TombstoneAll(Shift(c, l), ps) == Shift(c, TombstoneAll(l, ps))
    decreases |ps|
  {
    if ps != [] {
      if ps[0] in l.rep.entries {
        ShiftMint(c, l, TombstoneOf(ps[0], l.rep.entries[ps[0]], NextVersion(l.rep)));
      }
      ShiftTombstones(c, TombstoneOne(l, ps[0]), ps[1..]);
    }
  }

  lemma ShiftAccept(c: seq<Change>, l: Log, e: Entry)
    ensures Accept(Shift(c, l), e) == Shift(c, Accept(l, e))
  {
    var s := Store(l, e);
    assert Store(Shift(c, l), e) == Shift(c, s);
    ShiftTombstones(c, s, StrictlyBelow(s.rep.entries, e.path));
  }

  lemma ShiftOne(c: seq<Change>, l: Log, f: Fetched)
    ensures ApplyOne(Shift(c, l), f) == match ApplyOne(l, f) case Ok(next) => Ok(Shift(c, next)) case Err(e) => Err(e)
  {
    ShiftAccept(c, l, f.entry);
  }

  lemma {:induction false} ShiftBatch(c: seq<Change>, l: Log, batch: seq<Fetched>)
    ensures ApplyBatch(Shift(c, l), batch) ==
      BatchResult(Shift(c, ApplyBatch(l, batch).log), ApplyBatch(l, batch).failed)
    decreases |batch|
  {
    if batch != [] {
      ShiftOne(c, l, batch[0]);
      if ApplyOne(l, batch[0]).Ok? { ShiftBatch(c, ApplyOne(l, batch[0]).value, batch[1..]); }
    }
  }

  lemma ShiftOffer(c: seq<Change>, l: Log, e: Entry)
    ensures Offer(Shift(c, l), e) == Shift(c, Offer(l, e))
  {
    ShiftAccept(c, l, e);
  }

  lemma {:induction false} ShiftOffers(c: seq<Change>, l: Log, es: seq<Entry>)
    ensures OfferAll(Shift(c, l), es) == Shift(c, OfferAll(l, es))
    decreases |es|
  {
    if es != [] {
      ShiftOffer(c, l, es[0]);
      ShiftOffers(c, Offer(l, es[0]), es[1..]);
    }
  }
}
