/** The sweep after a walk (src/sync.rs `reconcile_with_advertised_root`): wherever the walk has
    stored a tombstone, the disk is looked at again. */
module Sweeps {
  import opened Bytes
  import opened Paths
  import opened Entries
  import opened Tree
  import opened Ignore
  import opened Replicas
  import opened Rescans
  import opened Events
  import opened WalkOrder
  import opened Visits
  import opened Reconciliation

  /** Every look at the disk shows `disk`. */
  ghost predicate Looks(net: Outside, disk: Index) {
    && DiskOk(disk)
    && forall p :: Clean(p) ==> EventOk(net.probe(p)) && EventPath(net.probe(p)) == p && ShownBy(disk, net.probe(p))
  }

  /** After the sweep the index says what is on disk wherever the walk has buried something: what
      is still there, or there again, is not lost, and what is gone stays buried. The same goes
      for whatever the index was right about before. */
  lemma SweptSays(t: Log, net: Outside, disk: Index, p: Text)
    requires Looks(net, disk) && forall c :: c in t.changes ==> Clean(c.path)
    requires !Buried(t.changes, Ascii(".nolil"))
    requires
      || Says(t.rep.entries, disk, p)
      || (Buried(t.changes, p) && !net.probe(p).Skipped? && !ShouldIgnore(p, net.rules))
    ensures Says(Swept(t, net).entries, disk, p)
  {
    var ps := Tombstoned(t.changes);
    var evs := Probes(net, ps);
    forall i | 0 <= i < |evs| ensures Clean(ps[i]) && evs[i] == net.probe(ps[i]) { assert ps[i] in ps; }
    assert forall ev :: ev in evs ==> EventOk(ev) && ShownBy(disk, ev);
    assert !RulesTouched(evs);
    if !Says(t.rep.entries, disk, p) {
      var i :| 0 <= i < |ps| && ps[i] == p;
      assert evs[i] in evs && Tells(evs[i], p);
    }
    EventsSay(Log(t.rep, []), disk, evs, net.rules, p);
  }

  /** If the rule file was buried, the sweep is a scan of the whole folder. */
  lemma RulesSwept(t: Log, net: Outside, p: Text)
    requires ScanOk(net.scan) && Buried(t.changes, Ascii(".nolil"))
    requires EventPath(net.probe(Ascii(".nolil"))) == Ascii(".nolil")
    ensures p in net.scan.found ==> Filed(Swept(t, net).entries, net.scan.found[p])
    ensures p !in net.scan.found && p !in net.scan.unstable && !ShouldIgnore(p, net.scan.rules) ==>
      p in Swept(t, net).entries ==> !Live(Swept(t, net).entries[p])
  {
    var ps := Tombstoned(t.changes);
    var i :| 0 <= i < |ps| && ps[i] == Ascii(".nolil");
    var evs := Probes(net, ps);
    assert evs[i] in evs && EventPath(evs[i]) == Ascii(".nolil");
    RulesPathScans(Log(t.rep, []), evs, net.rules, net.scan, p);
  }

  /** So it is for a whole pull and its sweep. */
  lemma PullSays(h: Hasher, remote: Remote, start: Replica, net: Outside, disk: Index, p: Text)
    requires RepOk(start) && OutsideOk(remote, net) && Consistent(h, remote.tree, remote.entries) && Looks(net, disk)
    requires NaivePull(Log(start, []), remote, net).failed.None?
    requires
      var log := NaivePull(Log(start, []), remote, net).log;
      && !Buried(log.changes, Ascii(".nolil"))
      && (|| Says(log.rep.entries, disk, p)
          || (Buried(log.changes, p) && !net.probe(p).Skipped? && !ShouldIgnore(p, net.rules)))
    ensures Says(Swept(NaivePull(Log(start, []), remote, net).log, net).entries, disk, p)
  {
    NaivePullMeans(h, remote, start, net);
    OffersLogged(Log(start, []), Everything(remote, net.arrivals));
    SweptSays(NaivePull(Log(start, []), remote, net).log, net, disk, p);
  }
}
