/** A rescan (src/state.rs `rescan`) leaves the index saying what the disk says, and
    a second one finds nothing to do. */
module Rescans {
  import opened Bytes
  import opened Paths
  import opened Entries
  import opened Tree
  import opened Ignore
  import opened Replicas
  import opened ReplicaFacts
  import opened Convergence

  /** What scanning a real directory tree can return: live entries whose parents are
      scanned directories, and no path both found and unstable. */
  ghost predicate ScanOk(scan: Scan) {
    && IndexOk(scan.found)
    && (forall p :: p in scan.found ==> Live(scan.found[p]))
    && (forall p :: p in scan.found && Parent(p) != [] ==>
          Parent(p) in scan.found && scan.found[Parent(p)].kind == Dir)
    && (forall p :: p in scan.unstable ==> p !in scan.found)
  }

  lemma {:induction false} AncestorsScanned(scan: Scan, p: Text, a: Text)
    requires ScanOk(scan) && p in scan.found && a != [] && p != a && AtOrUnder(p, a)
    ensures a in scan.found && scan.found[a].kind == Dir
    decreases |p|
  {
    if Parent(p) != [] && Parent(p) != a {
      AncestorsScanned(scan, Parent(p), a);
    }
  }

  /** The entry at its path takes the place of a directory. */
  predicate Displaces(idx: Index, e: Entry) {
    e.path in idx && idx[e.path].kind == Dir && e.kind != Dir
  }

  /** Observing one path leaves every other path alone, unless it lies below a directory that
      has just been replaced. */
  lemma ObserveFrame(l: Log, e: Entry, p: Text)
    requires p != e.path && !(Displaces(l.rep.entries, e) && Below(p, e.path))
    ensures SameAt(l.rep.entries, Observe(l, e).rep.entries, p)
  {
    var m := Mint(l, e);
    TombstoneAllBuries(m, StrictlyBelow(m.rep.entries, e.path), p);
  }

  /** `e` is filed under its path, under whatever version. */
  ghost predicate Filed(idx: Index, e: Entry) {
    e.path in idx && idx[e.path] == e.(version := idx[e.path].version)
  }

  /** What was observed is what the index has afterwards, but for the version. */
  lemma ObserveSelf(l: Log, e: Entry)
    ensures Filed(Observe(l, e).rep.entries, e)
  {
    var m := Mint(l, e);
    assert !Below(e.path, e.path);
    TombstoneAllBuries(m, StrictlyBelow(m.rep.entries, e.path), e.path);
  }

  /** Nothing happens exactly if that is what the index had before. Any difference is noticed:
      it gets the next version of the node, and a change that says what was there before. */
  lemma ObserveNotices(l: Log, e: Entry)
    ensures Observe(l, e) == l <==> Filed(l.rep.entries, e)
    ensures !Filed(l.rep.entries, e) ==>
      var m := Observe(l, e);
      && e.path in m.rep.entries && m.rep.entries[e.path].version == Version(l.rep.lamport + 1, l.rep.origin)
      && l.changes + [Change(e.path, Lookup(l.rep.entries, e.path), m.rep.entries[e.path])] <= m.changes
  {
    var m := Mint(l, e);
    assert !Below(e.path, e.path);
    TombstoneAllBuries(m, StrictlyBelow(m.rep.entries, e.path), e.path);
    TombstonesLater(m, StrictlyBelow(m.rep.entries, e.path));
  }

  lemma {:induction false} TombstonesLater(l: Log, ps: seq<Text>)
    ensures l.changes <= TombstoneAll(l, ps).changes && l.rep.lamport <= TombstoneAll(l, ps).rep.lamport
    ensures TombstoneAll(l, ps).rep.origin == l.rep.origin
    decreases |ps|
  {
    if ps != [] { TombstonesLater(TombstoneOne(l, ps[0]), ps[1..]); }
  }

  /** When something else has taken the place of a directory, all that was below it is dead. */
  lemma ObserveBuries(l: Log, e: Entry, q: Text)
    requires e.path in l.rep.entries && l.rep.entries[e.path].kind == Dir && e.kind != Dir
    ensures Below(q, e.path) && q in Observe(l, e).rep.entries ==> !Live(Observe(l, e).rep.entries[q])
  {
    var m := Mint(l, e);
    TombstoneAllBuries(m, StrictlyBelow(m.rep.entries, e.path), q);
  }

  /** Shown a part of the disk, the index agrees with all of it afterwards. */
  lemma {:induction false} ObserveAllAgrees(l: Log, scan: Scan, es: seq<Entry>, p: Text)
    requires ScanOk(scan) && p in scan.found
    requires forall e :: e in es ==> e.path in scan.found && scan.found[e.path] == e
    requires scan.found[p] in es || Filed(l.rep.entries, scan.found[p])
    ensures Filed(ObserveAll(l, es).rep.entries, scan.found[p])
    decreases |es|
  {
    if es != [] {
      var e := es[0];
      if e.path == p {
        ObserveSelf(l, e);
      } else {
        BelowIsUnder(p, e.path);
        if Below(p, e.path) { AncestorsScanned(scan, p, e.path); }
        ObserveFrame(l, e, p);
      }
      ObserveAllAgrees(Observe(l, e), scan, es[1..], p);
    }
  }

  lemma ListedAll(idx: Index, p: Text)
    requires p in idx
    ensures idx[p] in Listed(idx)
  {
    var ks := Sorted(idx.Keys);
    assert p in ks;
    var i :| 0 <= i < |ks| && ks[i] == p;
    assert Listed(idx)[i] == idx[p];
  }

  /** What the index had at a scanned path, it keeps as it is, version and all, exactly if that
      is what was scanned; anything else gets a version of the node's own, beyond its clock. */
  lemma {:induction false} ObserveAllNotices(l: Log, scan: Scan, es: seq<Entry>, p: Text)
    requires ScanOk(scan) && p in scan.found && scan.found[p] in es
    requires forall e :: e in es ==> e.path in scan.found && scan.found[e.path] == e
    ensures p in ObserveAll(l, es).rep.entries
    ensures
      var now := ObserveAll(l, es).rep.entries[p];
      if Filed(l.rep.entries, scan.found[p]) then now == l.rep.entries[p]
      else now.version.origin == l.rep.origin && l.rep.lamport < now.version.lamport
    decreases |es|
  {
    var e := es[0];
    var m := Observe(l, e);
    ObserveNotices(l, e);
    ObserveLater(l, e);
    if e.path == p {
      ObserveSelf(l, e);
      FiledStays(m, scan, es[1..], p);
    } else {
      AboveScanned(scan, p, e);
      ObserveFrame(l, e, p);
      ObserveAllNotices(m, scan, es[1..], p);
    }
  }

  lemma AboveScanned(scan: Scan, p: Text, e: Entry)
    requires ScanOk(scan) && p in scan.found && e.path in scan.found && scan.found[e.path] == e && e.path != p
    ensures Below(p, e.path) ==> e.kind == Dir
  {
    BelowIsUnder(p, e.path);
    if Below(p, e.path) { AncestorsScanned(scan, p, e.path); }
  }

  lemma ObserveLater(l: Log, e: Entry)
    ensures l.rep.lamport <= Observe(l, e).rep.lamport && Observe(l, e).rep.origin == l.rep.origin
  {
    var m := Mint(l, e);
    TombstonesLater(m, StrictlyBelow(m.rep.entries, e.path));
  }

  lemma {:induction false} FiledStays(l: Log, scan: Scan, es: seq<Entry>, p: Text)
    requires ScanOk(scan) && p in scan.found && Filed(l.rep.entries, scan.found[p])
    requires forall e :: e in es ==> e.path in scan.found && scan.found[e.path] == e
    ensures p in ObserveAll(l, es).rep.entries && ObserveAll(l, es).rep.entries[p] == l.rep.entries[p]
    decreases |es|
  {
    if es != [] {
      ObserveNotices(l, es[0]);
      if es[0].path != p {
        AboveScanned(scan, p, es[0]);
        ObserveFrame(l, es[0], p);
      }
      FiledStays(Observe(l, es[0]), scan, es[1..], p);
    }
  }

  /** A rescan notices every difference at a scanned path, and nothing else. */
  lemma RescanNotices(l: Log, scan: Scan, p: Text)
    requires ScanOk(scan) && p in scan.found
    ensures p in Rescan(l, scan).rep.entries
    ensures
      var now := Rescan(l, scan).rep.entries[p];
      if Filed(l.rep.entries, scan.found[p]) then now == l.rep.entries[p]
      else now.version.origin == l.rep.origin && l.rep.lamport < now.version.lamport
  {
    var seen := ObserveAll(l, Listed(scan.found));
    ListedClean(scan.found);
    ListedAll(scan.found, p);
    ObserveAllNotices(l, scan, Listed(scan.found), p);
    TombstoneAllBuries(seen, Unseen(scan, Sorted(seen.rep.entries.Keys)), p);
  }

  /** Every scanned path ends in the scanned state; every other path that is neither
      unstable nor ignored ends absent or a tombstone. */
  lemma RescanFaithful(l: Log, scan: Scan, p: Text)
    requires ScanOk(scan)
    ensures p in scan.found ==>
      && p in Rescan(l, scan).rep.entries
      && Rescan(l, scan).rep.entries[p] == scan.found[p].(version := Rescan(l, scan).rep.entries[p].version)
    ensures p in Rescan(l, scan).rep.entries && p !in scan.found && p !in scan.unstable && !ShouldIgnore(p, scan.rules)
      ==> !Live(Rescan(l, scan).rep.entries[p])
  {
    var seen := ObserveAll(l, Listed(scan.found));
    var gone := Unseen(scan, Sorted(seen.rep.entries.Keys));
    TombstoneAllBuries(seen, gone, p);
    if p in scan.found {
      ListedClean(scan.found);
      ListedAll(scan.found, p);
      ObserveAllAgrees(l, scan, Listed(scan.found), p);
    } else if p in seen.rep.entries {
      assert p in Sorted(seen.rep.entries.Keys);
    }
  }

  /** Ignored and unstable paths are left exactly as they were, unless something that
      is not a directory was found above them. */
  lemma RescanSpares(l: Log, scan: Scan, p: Text)
    requires ScanOk(scan) && p in l.rep.entries && p !in scan.found
    requires p in scan.unstable || ShouldIgnore(p, scan.rules)
    requires forall a :: a in scan.found && Below(p, a) ==> scan.found[a].kind == Dir
    ensures p in Rescan(l, scan).rep.entries && Rescan(l, scan).rep.entries[p] == l.rep.entries[p]
  {
    var seen := ObserveAll(l, Listed(scan.found));
    ListedClean(scan.found);
    ObserveAllSpares(l, scan, Listed(scan.found), p);
    TombstoneAllBuries(seen, Unseen(scan, Sorted(seen.rep.entries.Keys)), p);
  }

  lemma {:induction false} ObserveAllSpares(l: Log, scan: Scan, es: seq<Entry>, p: Text)
    requires p in l.rep.entries && p !in scan.found
    requires forall e :: e in es ==> e.path in scan.found && scan.found[e.path] == e
    requires forall a :: a in scan.found && Below(p, a) ==> scan.found[a].kind == Dir
    ensures p in ObserveAll(l, es).rep.entries && ObserveAll(l, es).rep.entries[p] == l.rep.entries[p]
    decreases |es|
  {
    if es != [] {
      ObserveFrame(l, es[0], p);
      ObserveAllSpares(Observe(l, es[0]), scan, es[1..], p);
    }
  }

  lemma {:induction false} ObserveAllIdle(l: Log, es: seq<Entry>)
    requires forall e :: e in es ==> Filed(l.rep.entries, e)
    ensures ObserveAll(l, es) == l
    decreases |es|
  {
    if es != [] {
      ObserveNotices(l, es[0]);
      ObserveAllIdle(l, es[1..]);
    }
  }

  /** A second rescan of the same disk changes nothing. */
  lemma RescanIdempotent(l: Log, scan: Scan, again: Log)
    requires ScanOk(scan) && again.rep == Rescan(l, scan).rep
    ensures Rescan(again, scan) == again
  {
    ListedClean(scan.found);
    forall e | e in Listed(scan.found) ensures Filed(again.rep.entries, e) { RescanFaithful(l, scan, e.path); }
    ObserveAllIdle(again, Listed(scan.found));
    var gone := Unseen(scan, Sorted(again.rep.entries.Keys));
    forall p | p in gone ensures !Live(again.rep.entries[p]) { RescanFaithful(l, scan, p); }
    TombstoneAllIdle(again, gone);
  }

  /** The clock advances by the number of changes, whose versions are all distinct. */
  lemma RescanCounts(r: Replica, scan: Scan)
    requires IndexOk(r.entries) && IndexOk(scan.found)
    ensures Rescan(Log(r, []), scan).rep.lamport == r.lamport + |Rescan(Log(r, []), scan).changes|
    ensures forall i, j :: 0 <= i < j < |Rescan(Log(r, []), scan).changes| ==>
      Rescan(Log(r, []), scan).changes[i].next.version.Less(Rescan(Log(r, []), scan).changes[j].next.version)
  {
    var a, b := Log(r, []), Rescan(Log(r, []), scan);
    RescanGrows(a, scan);
    forall i, j | 0 <= i < j < |b.changes| ensures b.changes[i].next.version.Less(b.changes[j].next.version) {
      assert Issued(a, b, i) && Issued(a, b, j);
    }
  }
}
