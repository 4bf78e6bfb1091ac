/** src/state.rs: the state of one watched folder. Each method is proved against the
    function of Replica.dfy that says what it does to the index, clock, watermark and
    change list, and keeps both Merkle trees consistent with the index. */
module FolderStates {
  import opened Wrappers
  import opened Bytes
  import opened Paths
  import opened Entries
  import opened Tree
  import opened TreeBuild
  import opened TreeUpdate
  import opened Ignore
  import opened Replicas
  import opened ReplicaFacts
  import opened Collection
  import opened Convergence

  // ---------- which paths a change list mentions ----------

  function PathsOf(changes: seq<Change>): (ps: seq<Text>)
    ensures |ps| == |changes| && forall i :: 0 <= i < |ps| ==> ps[i] == changes[i].path
  {
    seq(|changes|, i requires 0 <= i < |changes| => changes[i].path)
  }

  /** The changes from `a` to `b` mention every path at which the indices differ. */
  ghost predicate Logged(a: Log, b: Log) {
    && a.changes <= b.changes
    && Covers(PathsOf(b.changes[|a.changes|..]), a.rep.entries, b.rep.entries)
    && forall k :: |a.changes| <= k < |b.changes| ==> Clean(b.changes[k].path)
  }

  lemma LoggedTransitive(a: Log, b: Log, c: Log)
    requires Logged(a, b) && Logged(b, c)
    ensures Logged(a, c)
  {
    var ps, qs := PathsOf(b.changes[|a.changes|..]), PathsOf(c.changes[|b.changes|..]);
    var all := PathsOf(c.changes[|a.changes|..]);
    assert all == ps + qs;
  }

  lemma GrowsLogged(a: Log, b: Log)
    requires IndexOk(a.rep.entries) && Grows(a, b)
    ensures Logged(a, b)
  {
    var ps := PathsOf(b.changes[|a.changes|..]);
    forall p | p !in ps
      ensures (p in a.rep.entries <==> p in b.rep.entries)
        && (p in a.rep.entries ==> a.rep.entries[p] == b.rep.entries[p])
    {
      if p in b.rep.entries {
        assert OldOrIssued(a, b, p);
        assert forall k :: |a.changes| <= k < |b.changes| ==>
          b.changes[k].path == ps[k - |a.changes|] && ps[k - |a.changes|] in ps;
      }
    }
    forall k | |a.changes| <= k < |b.changes| ensures Clean(b.changes[k].path) { assert Issued(a, b, k); }
  }

  lemma OfferLogged(l: Log, e: Entry)
    requires RepOk(l.rep)
    ensures Logged(l, Offer(l, e))
  {
    if ShouldAccept(l.rep, e) {
      var s := Store(l, e);
      StoreOk(l, e);
      assert s.changes[|l.changes|..] == [Change(e.path, Lookup(l.rep.entries, e.path), e)];
      assert PathsOf(s.changes[|l.changes|..]) == [e.path];
      ValidIsClean(e.path);
      AcceptGrows(l, e);
      GrowsLogged(s, Accept(l, e));
      LoggedTransitive(l, s, Accept(l, e));
    }
  }

  lemma {:induction false} BatchLogged(l: Log, batch: seq<Fetched>)
    requires RepOk(l.rep)
    ensures RepOk(ApplyBatch(l, batch).log.rep) && Logged(l, ApplyBatch(l, batch).log)
    decreases |batch|
  {
    if batch != [] && ApplyOne(l, batch[0]).Ok? {
      var m := Offer(l, batch[0].entry);
      OfferOk(l, batch[0].entry);
      OfferLogged(l, batch[0].entry);
      BatchLogged(m, batch[1..]);
      LoggedTransitive(l, m, ApplyBatch(l, batch).log);
    }
  }

  /** When a batch fails part of the way, the tree still describes the index exactly if
      the replica dominated everything that got through before. */
  lemma FailedBatchTree(h: Hasher, play: iset<Text>, s: TreeSnapshot, l: Log, batch: seq<Fetched>) returns (n: nat)
    requires RepOk(l.rep) && InjectiveOn(h, play)
    requires Consistent(h, s, l.rep.entries) && InPlay(play, s, l.rep.entries)
    requires InPlay(play, s, ApplyBatch(l, batch).log.rep.entries)
    ensures n <= |batch| && (ApplyBatch(l, batch).failed.None? <==> n == |batch|)
    ensures n < |batch| ==> ApplyOne(ApplyBatch(l, batch).log, batch[n]).Err?
    ensures ApplyBatch(l, batch).log == OfferAll(l, EntriesIn(batch[..n]))
    ensures Consistent(h, s, ApplyBatch(l, batch).log.rep.entries) <==>
      forall e :: e in EntriesIn(batch[..n]) ==> Dominates(l.rep, e)
  {
    n := BatchPrefix(l, batch);
    OffersUntouched(l, EntriesIn(batch[..n]));
    if Consistent(h, s, ApplyBatch(l, batch).log.rep.entries) {
      EqualRootsEqualIndices(h, play, s, l.rep.entries, s, ApplyBatch(l, batch).log.rep.entries);
    }
  }

  /** Every item up to the first that fails would be left alone in the present state. */
  predicate Harmless(r: Replica, batch: seq<Fetched>)
    decreases |batch|
  {
    batch == [] || match ApplyOne(Log(r, []), batch[0])
      case Err(_) => true
      case Ok(_) => !ShouldAccept(r, batch[0].entry) && Harmless(r, batch[1..])
  }

  /** The same condition, read off the batch and the state before the call. */
  lemma {:induction false} HarmlessBatch(l: Log, batch: seq<Fetched>)
    requires RepOk(l.rep)
    ensures ApplyBatch(l, batch).log.rep.entries == l.rep.entries <==> Harmless(l.rep, batch)
    decreases |batch|
  {
    if batch != [] && ApplyOne(l, batch[0]).Ok? {
      if ShouldAccept(l.rep, batch[0].entry) {
        var n := BatchPrefix(l, batch);
        AcceptIffNotDominated(l.rep, batch[0].entry);
        assert n > 0 && EntriesIn(batch[..n])[0] == batch[0].entry;
        OffersUntouched(l, EntriesIn(batch[..n]));
      } else {
        HarmlessBatch(l, batch[1..]);
      }
    }
  }

  /** The smallest batch that leaves the tree behind: a directory is stored, and the file
      after it cannot be installed. */
  lemma StaleTree(h: Hasher, play: iset<Text>, s: TreeSnapshot, origin: Text, d: Entry, f: Entry)
    requires d.path == Ascii("d") && d.kind == Dir && f.path == Ascii("f") && f.kind == File
    requires InjectiveOn(h, play) && Consistent(h, s, map[]) && InPlay(play, s, map[])
    requires InPlay(play, s, map[d.path := d])
    ensures
      var r := ApplyBatch(Log(Replica(origin, 0, map[], map[]), []),
                          [Fetched(d, false, true), Fetched(f, true, false)]);
      && r.failed == Some(Storage) && r.log.rep.entries == map[d.path := d]
      && !Consistent(h, s, r.log.rep.entries)
  {
    var batch := [Fetched(d, false, true), Fetched(f, true, false)];
    var l := Log(Replica(origin, 0, map[], map[]), []);
    OneLetter("d");
    OneLetter("f");
    assert batch[1..] == [Fetched(f, true, false)];
    var after := Store(l, d);
    assert ApplyOne(l, batch[0]) == Ok(after);
    assert ApplyOne(after, batch[1]) == Err(Storage);
    assert d.path in after.rep.entries;
    if Consistent(h, s, after.rep.entries) {
      EqualRootsEqualIndices(h, play, s, map[], s, after.rep.entries);
    }
  }

  /** One ordinary letter is a valid remote path. */
  lemma OneLetter(s: string)
    requires |s| == 1 && 'a' <= s[0] <= 'z'
    ensures ValidRemotePath(Ascii(s))
  {
    SplitNone(Ascii(s), SLASH);
  }

  /** A batch gives the same trees as its entries one at a time: from a pruned start
      both are pruned, and a pruned snapshot of an index is unique. */
  lemma PrunedTreesAgree(h: Hasher, idx: Index, s: TreeSnapshot, t: TreeSnapshot)
    requires Consistent(h, s, idx) && Pruned(s.nodes.Keys, idx)
    requires Consistent(h, t, idx) && Pruned(t.nodes.Keys, idx)
    ensures s == t
  {
    assert s.nodes.Keys == t.nodes.Keys;
    SnapshotUnique(h, s, t, idx);
  }

  lemma CoversLive(ps: seq<Text>, a: Index, b: Index)
    requires Covers(ps, a, b)
    ensures Covers(ps, LivePart(a), LivePart(b))
  {
  }

  lemma AnyIsAll(idx: Index)
    ensures Included(idx, Any) == idx
  {
  }

  lemma CanonicalTight(keys: set<Text>, idx: Index)
    requires CanonicalKeys(keys, idx)
    ensures Tight(keys, idx)
  {
  }

  // ---------- the state ----------

  class FolderState {
    const hash: Hasher
    const origin: Text
    var lamport: nat
    var gcWatermark: Watermark
    var entries: Index
    var tree: TreeSnapshot
    var liveTree: TreeSnapshot

    ghost function View(): Replica
      reads this
    {
      Replica(origin, lamport, gcWatermark, entries)
    }

    /** Both trees describe `idx`: all of it, and its live part. */
    ghost predicate TreesShow(idx: Index)
      reads this
    {
      && Consistent(hash, tree, idx) && Tight(tree.nodes.Keys, idx)
      && Consistent(hash, liveTree, LivePart(idx)) && Tight(liveTree.nodes.Keys, LivePart(idx))
    }

    /** Both trees describe the index. */
    ghost predicate TreesOk()
      reads this
    {
      TreesShow(entries)
    }

    /** What holds at all times, also after a batch that failed part of the way and left
        the trees behind the index. */
    ghost predicate Sound()
      reads this
    {
      RepOk(View()) && CleanKeys(tree.nodes.Keys) && CleanKeys(liveTree.nodes.Keys)
    }

    ghost predicate Valid()
      reads this
    {
      Sound() && TreesOk()
    }

    /** Neither tree has a node for a childless directory. */
    ghost predicate PrunedTrees()
      reads this
    {
      Pruned(tree.nodes.Keys, entries) && Pruned(liveTree.nodes.Keys, LivePart(entries))
    }

    /** Both trees are what a full derivation gives. */
    ghost predicate DerivedTrees()
      reads this
    {
      CanonicalKeys(tree.nodes.Keys, entries) && CanonicalKeys(liveTree.nodes.Keys, LivePart(entries))
    }

    /** The tree is the update of `before` for the changed paths, also if it was left behind. */
    ghost predicate UpdatedFrom(before: TreeSnapshot, changed: seq<Text>)
      reads this
    {
      forall shown :: Consistent(hash, before, shown) ==> MixedTree(hash, before, shown, entries, changed, tree)
    }

    /** The clock a node starts with: the highest of the saved clock, the clocks of the
        saved entries and the node's own watermark. */
    static ghost predicate IsStartClock(clock: nat, origin: Text, saved: nat, w: Watermark, idx: Index) {
      && saved <= clock && Mark(w, origin) <= clock && (forall p :: p in idx ==> idx[p].version.lamport <= clock)
      && (clock == saved || clock == Mark(w, origin) || exists p :: p in idx && idx[p].version.lamport == clock)
    }

    /** What a rescan leaves of a saved state, starting from a pruned index and a start clock. */
    static ghost predicate IsStart(r: Replica, saved: nat, w: Watermark, idx: Index, scan: Scan) {
      exists clock: nat, changes: seq<Change> {:trigger StartsAt(r, changes, clock, w, idx, scan)} ::
        IsStartClock(clock, r.origin, saved, w, idx) && StartsAt(r, changes, clock, w, idx, scan)
    }

    static ghost predicate StartsAt(r: Replica, changes: seq<Change>, clock: nat, w: Watermark, idx: Index,
                                    scan: Scan)
    {
      Log(r, changes) == Rescan(Log(Replica(r.origin, clock, w, Prune(idx, w)), []), scan)
    }

    static lemma PrunedStart(clock: nat, origin: Text, saved: nat, w: Watermark, idx: Index)
      requires IndexOk(idx) && IsStartClock(clock, origin, saved, w, idx)
      ensures RepOk(Replica(origin, clock, w, Prune(idx, w)))
    {
    }

    /** `FolderState::new`: from whatever was saved, with the first scan of the folder. */
    constructor (hash: Hasher, origin: Text, savedLamport: nat, savedWatermark: Watermark, savedEntries: Index,
                 scan: Scan)
      requires IndexOk(savedEntries) && IndexOk(scan.found)
      ensures this.hash == hash && this.origin == origin
      ensures Valid() && DerivedTrees()
      ensures IsStart(View(), savedLamport, savedWatermark, savedEntries, scan)
    {
      this.hash, this.origin := hash, origin;
      gcWatermark, entries := savedWatermark, savedEntries;
      lamport := savedLamport;
      tree := TreeSnapshot(seq(32, _ => 0), map[]);
      liveTree := TreeSnapshot(seq(32, _ => 0), map[]);
      new;
      StartClock(savedLamport);
      ghost var clock := lamport;
      PrunedStart(clock, origin, savedLamport, savedWatermark, savedEntries);
      var _ := PruneTombstones();
      ghost var pruned := View();
      assert pruned == Replica(origin, clock, savedWatermark, Prune(savedEntries, savedWatermark));
      var changes := DoRescan(scan);
      assert Log(View(), changes) == Rescan(Log(pruned, []), scan);
      assert StartsAt(View(), changes, clock, savedWatermark, savedEntries, scan);
    }

    /** The start clock covers what was loaded. */
    method StartClock(saved: nat)
      modifies this`lamport
      ensures IsStartClock(lamport, origin, saved, gcWatermark, entries)
    {
      var highest := HighestLamport(entries);
      lamport := Max(Max(saved, highest), Mark(gcWatermark, origin));
    }

    /** The highest clock value in an index. */
    static method HighestLamport(idx: Index) returns (m: nat)
      ensures forall p :: p in idx ==> idx[p].version.lamport <= m
      ensures m == 0 || exists p :: p in idx && idx[p].version.lamport == m
    {
      m := 0;
      var todo := idx.Keys;
      while todo != {}
        invariant todo <= idx.Keys
        invariant forall p :: p in idx && p !in todo ==> idx[p].version.lamport <= m
        invariant m == 0 || exists p :: p in idx && idx[p].version.lamport == m
      {
        var p :| p in todo;
        m := Max(m, idx[p].version.lamport);
        todo := todo - {p};
      }
    }

    /** `node`. */
    function Node(prefix: Text): Option<TreeNode>
      reads this
    {
      var k := NormalizePrefix(prefix);
      if k in tree.nodes then Some(tree.nodes[k]) else None
    }

    // ---------- trees ----------

    method RebuildTrees()
      requires IndexOk(entries)
      modifies this`tree, this`liveTree
      ensures TreesOk() && DerivedTrees()
    {
      AnyIsAll(entries);
      tree := DeriveTree(hash, entries, Any);
      liveTree := DeriveTree(hash, entries, Live);
      CanonicalTight(tree.nodes.Keys, entries);
      CanonicalTight(liveTree.nodes.Keys, LivePart(entries));
    }

    /** Update both trees for changes that cover every difference from `before`. Trees that
        described `before` then describe the index. */
    method UpdateTrees(changed: seq<Text>, ghost before: Index)
      requires Sound() && Covers(changed, before, entries) && forall p :: p in changed ==> Clean(p)
      modifies this`tree, this`liveTree
      ensures Sound()
      ensures Refreshed(hash, old(tree).nodes, entries, changed, tree.nodes)
      ensures Refreshed(hash, old(liveTree).nodes, LivePart(entries), changed, liveTree.nodes)
      ensures UpdatedFrom(old(tree), changed)
      ensures old(TreesShow(before)) ==> TreesOk()
      ensures old(TreesShow(before) && Pruned(tree.nodes.Keys, before) && Pruned(liveTree.nodes.Keys, LivePart(before)))
        ==> PrunedTrees()
    {
      AnyIsAll(entries);
      CoversLive(changed, before, entries);
      ghost var keys, liveKeys, shown := tree.nodes.Keys, liveTree.nodes.Keys, TreesShow(before);
      tree := UpdateTreeSnapshot(hash, tree, entries, changed, Any);
      liveTree := UpdateTreeSnapshot(hash, liveTree, entries, changed, Live);
      if shown {
        UpdatedTight(keys, before, entries, changed, tree.nodes.Keys);
        UpdatedTight(liveKeys, LivePart(before), LivePart(entries), changed, liveTree.nodes.Keys);
        if Pruned(keys, before) { UpdatePruned(keys, before, entries, changed, tree.nodes.Keys); }
        if Pruned(liveKeys, LivePart(before)) {
          UpdatePruned(liveKeys, LivePart(before), LivePart(entries), changed, liveTree.nodes.Keys);
        }
      }
    }

    // ---------- local changes ----------

    /** `next_version`. */
    method NextStamp() returns (v: Version)
      modifies this`lamport
      ensures v == NextVersion(old(View())) && lamport == old(lamport) + 1
    {
      lamport := lamport + 1;
      v := Version(lamport, origin);
    }

    method Write(live: Entry, log: seq<Change>) returns (changes: seq<Change>)
      modifies this`lamport, this`entries
      ensures Log(View(), changes) == Mint(Log(old(View()), log), live)
    {
      var v := NextStamp();
      var next := live.(version := v);
      changes := log + [Change(live.path, Lookup(entries, live.path), next)];
      entries := entries[live.path := next];
    }

    /** The loop shared by the two `tombstone_*descendants` methods. */
    method TombstonePaths(ps: seq<Text>, log: seq<Change>) returns (changes: seq<Change>)
      modifies this`lamport, this`entries
      ensures Log(View(), changes) == TombstoneAll(Log(old(View()), log), ps)
    {
      changes := log;
      for i := 0 to |ps|
        invariant TombstoneAll(Log(View(), changes), ps[i..]) == TombstoneAll(Log(old(View()), log), ps)
      {
        assert ps[i..][0] == ps[i] && ps[i..][1..] == ps[i + 1..];
        if ps[i] in entries && Live(entries[ps[i]]) {
          changes := Write(TombstoneOf(ps[i], entries[ps[i]], Version(0, [])), changes);
        }
      }
    }

    method TombstoneDescendants(path: Text, log: seq<Change>) returns (changes: seq<Change>)
      modifies this`lamport, this`entries
      ensures Log(View(), changes) == Remove(Log(old(View()), log), path)
    {
      changes := TombstonePaths(Sorted(set q | q in entries && (q == path || Below(q, path))), log);
    }

    method TombstoneChildDescendants(path: Text, log: seq<Change>) returns (changes: seq<Change>)
      modifies this`lamport, this`entries
      ensures Log(View(), changes) == TombstoneBelow(Log(old(View()), log), path)
    {
      changes := TombstonePaths(Sorted(set q | q in entries && Below(q, path)), log);
    }

    /** `update_entry`. */
    method UpdateEntry(live: Entry, log: seq<Change>) returns (changes: seq<Change>)
      modifies this`lamport, this`entries
      ensures Log(View(), changes) == Observe(Log(old(View()), log), live)
    {
      var existing := Lookup(entries, live.path);
      if existing.Some? && SameObserved(existing.value, live) {
        return log;
      }
      var replacesDir := existing.Some? && existing.value.kind == Dir && live.kind != Dir;
      changes := Write(live, log);
      if replacesDir {
        changes := TombstoneChildDescendants(live.path, changes);
      }
    }

    method UpdateEntries(lives: seq<Entry>, log: seq<Change>) returns (changes: seq<Change>)
      modifies this`lamport, this`entries
      ensures Log(View(), changes) == ObserveAll(Log(old(View()), log), lives)
    {
      changes := log;
      for i := 0 to |lives|
        invariant ObserveAll(Log(View(), changes), lives[i..]) == ObserveAll(Log(old(View()), log), lives)
      {
        assert lives[i..][0] == lives[i] && lives[i..][1..] == lives[i + 1..];
        changes := UpdateEntry(lives[i], changes);
      }
    }

    /** The second loop of `rescan`: bury what the scan did not see. */
    method TombstoneUnseen(scan: Scan, paths: seq<Text>, log: seq<Change>) returns (changes: seq<Change>)
      modifies this`lamport, this`entries
      ensures Log(View(), changes) == TombstoneAll(Log(old(View()), log), Unseen(scan, paths))
    {
      changes := log;
      ghost var goal := TombstoneAll(Log(View(), log), Unseen(scan, paths));
      assert paths[0..] == paths;
      for i := 0 to |paths|
        invariant TombstoneAll(Log(View(), changes), Unseen(scan, paths[i..])) == goal
      {
        var path := paths[i];
        assert paths[i..] == [path] + paths[i + 1..];
        UnseenStep(scan, paths[i..], path, paths[i + 1..], Log(View(), changes));
        var skip := path in scan.found || path in scan.unstable;
        if !skip { skip := CheckIgnore(path, scan.rules); }
        ghost var before := Log(View(), changes);
        if !skip && path in entries && Live(entries[path]) {
          changes := Write(TombstoneOf(path, entries[path], Version(0, [])), changes);
        }
        assert Log(View(), changes) == if skip then before else TombstoneOne(before, path);
      }
    }

    static lemma UnseenStep(scan: Scan, ps: seq<Text>, p: Text, rest: seq<Text>, l: Log)
      requires ps == [p] + rest
      ensures TombstoneAll(l, Unseen(scan, ps)) == (
        if p in scan.found || p in scan.unstable || ShouldIgnore(p, scan.rules)
        then TombstoneAll(l, Unseen(scan, rest))
        else TombstoneAll(TombstoneOne(l, p), Unseen(scan, rest)))
    {
      assert ps[1..] == rest;
      var later := Unseen(scan, rest);
      assert ([p] + later)[0] == p && ([p] + later)[1..] == later;
    }

    /** `rescan`. */
    method DoRescan(scan: Scan) returns (changes: seq<Change>)
      requires RepOk(View()) && IndexOk(scan.found)
      modifies this`lamport, this`entries, this`tree, this`liveTree
      ensures Log(View(), changes) == Rescan(Log(old(View()), []), scan)
      ensures Valid() && DerivedTrees()
    {
      ghost var before := Log(View(), []);
      changes := UpdateEntries(Listed(scan.found), []);
      changes := TombstoneUnseen(scan, Sorted(entries.Keys), changes);
      RescanGrows(before, scan);
      GrowsOk(before, Log(View(), changes));
      RebuildTrees();
    }

    /** `apply_one_path`. */
    method ApplyOnePath(ev: Event, rules: seq<Rule>, log: seq<Change>) returns (changes: seq<Change>)
      modifies this`lamport, this`entries
      ensures Log(View(), changes) == ApplyEvent(Log(old(View()), log), ev, rules)
    {
      var skip := CheckIgnore(EventPath(ev), rules);
      if skip { return log; }
      match ev
      case Gone(p) => changes := TombstoneDescendants(p, log);
      case Leaf(live) => changes := UpdateEntry(live, log);
      case Folder(live, contents) =>
        changes := UpdateEntry(live, log);
        changes := UpdateEntries(Listed(contents), changes);
      case Skipped(_) => changes := log;
    }

    /** The loop of `apply_paths`. */
    method ApplyEach(evs: seq<Event>, rules: seq<Rule>) returns (changes: seq<Change>)
      modifies this`lamport, this`entries
      ensures Log(View(), changes) == ApplyEvents(Log(old(View()), []), evs, rules)
    {
      changes := [];
      ghost var goal := ApplyEvents(Log(View(), []), evs, rules);
      assert evs[0..] == evs;
      for i := 0 to |evs|
        invariant ApplyEvents(Log(View(), changes), evs[i..], rules) == goal
      {
        assert evs[i..][0] == evs[i] && evs[i..][1..] == evs[i + 1..];
        changes := ApplyOnePath(evs[i], rules, changes);
      }
    }

    /** `apply_paths`. An event for the rule file leads to a full rescan. */
    method ApplyPaths(evs: seq<Event>, rules: seq<Rule>, scan: Scan) returns (changes: seq<Change>)
      requires Sound() && IndexOk(scan.found) && forall ev :: ev in evs ==> EventOk(ev)
      modifies this`lamport, this`entries, this`tree, this`liveTree
      ensures Log(View(), changes) == ApplyAll(Log(old(View()), []), evs, rules, scan)
      ensures Sound() && (old(Valid()) || RulesTouched(evs) ==> Valid())
      ensures !RulesTouched(evs) ==> UpdatedFrom(old(tree), PathsOf(changes))
      ensures old(Valid() && PrunedTrees()) && !RulesTouched(evs) ==> PrunedTrees()
    {
      if RulesTouched(evs) {
        changes := DoRescan(scan);
        return;
      }
      ghost var before := Log(View(), []);
      changes := ApplyEach(evs, rules);
      EventsGrow(before, evs, rules);
      GrowsOk(before, Log(View(), changes));
      GrowsLogged(before, Log(View(), changes));
      assert changes[0..] == changes;
      if changes != [] {
        UpdateTrees(PathsOf(changes), before.rep.entries);
      } else {
        NothingLogged(before, Log(View(), changes));
        NotUpdated();
      }
    }

    lemma NotUpdated()
      ensures UpdatedFrom(tree, PathsOf([]))
    {
      assert PathsOf([]) == [];
      forall shown | Consistent(hash, tree, shown) ensures MixedTree(hash, tree, shown, entries, [], tree) {
        MixedNothing(hash, tree, shown, entries);
      }
    }

    lemma NothingLogged(a: Log, b: Log)
      requires Logged(a, b) && b.changes == []
      ensures a.rep.entries == b.rep.entries
    {
      assert PathsOf(b.changes[|a.changes|..]) == [];
    }

    // ---------- remote entries ----------

    /** `apply_remote_entry_core`. */
    method ApplyRemoteEntryCore(f: Fetched, log: seq<Change>) returns (r: Result<seq<Change>>)
      modifies this`lamport, this`entries
      ensures match ApplyOne(Log(old(View()), log), f)
        case Ok(next) => r.Ok? && Log(View(), r.value) == next
        case Err(e) => r == Err(e) && View() == old(View())
    {
      var e := f.entry;
      if !ValidRemotePath(e.path) { return Err(InvalidInput); }
      if !ShouldAccept(Replica(origin, lamport, gcWatermark, entries), e) { return Ok(log); }
      match e.kind {
        case File => if !f.hasTmp { return Err(InvalidInput); }
        case Symlink =>
          if e.symlinkTarget.None? || !ValidTarget(e.symlinkTarget.value) { return Err(InvalidInput); }
        case Dir =>
        case Tombstone =>
      }
      if !f.installs { return Err(Storage); }
      lamport := Max(lamport, e.version.lamport);
      var changes := log + [Change(e.path, Lookup(entries, e.path), e)];
      entries := entries[e.path := e];
      if e.kind != Dir {
        changes := TombstoneChildDescendants(e.path, changes);
      }
      return Ok(changes);
    }

    /** `apply_remote_entries`. A failing item leaves the entries before it applied and
        the trees not updated. */
    method ApplyRemoteEntries(batch: seq<Fetched>) returns (r: Result<seq<Change>>)
      requires Sound()
      modifies this`lamport, this`entries, this`tree, this`liveTree
      ensures Sound() && View() == ApplyBatch(Log(old(View()), []), batch).log.rep
      ensures match ApplyBatch(Log(old(View()), []), batch).failed
        case None => r == Ok(ApplyBatch(Log(old(View()), []), batch).log.changes) && (old(Valid()) ==> Valid())
        case Some(e) => r == Err(e) && tree == old(tree) && liveTree == old(liveTree)
      ensures r.Ok? ==> UpdatedFrom(old(tree), PathsOf(r.value))
      ensures r.Ok? && old(Valid() && PrunedTrees()) ==> PrunedTrees()
    {
      ghost var before := Log(View(), []);
      BatchLogged(before, batch);
      var changes: seq<Change> := [];
      assert batch[0..] == batch;
      for i := 0 to |batch|
        invariant ApplyBatch(Log(View(), changes), batch[i..]) == ApplyBatch(before, batch)
        invariant tree == old(tree) && liveTree == old(liveTree)
      {
        assert batch[i..][0] == batch[i] && batch[i..][1..] == batch[i + 1..];
        changes :- ApplyRemoteEntryCore(batch[i], changes);
      }
      assert changes[0..] == changes;
      if changes != [] {
        UpdateTrees(PathsOf(changes), before.rep.entries);
      } else {
        NothingLogged(before, Log(View(), changes));
        NotUpdated();
      }
      return Ok(changes);
    }

    // ---------- garbage collection ----------

    /** `prune_tombstones_covered_by_watermark`. */
    method PruneTombstones() returns (count: nat)
      requires IndexOk(entries)
      modifies this`entries, this`tree, this`liveTree
      ensures entries == Prune(old(entries), gcWatermark)
      ensures count == 0 <==> entries == old(entries)
      ensures count == 0 ==> tree == old(tree) && liveTree == old(liveTree)
      ensures count != 0 ==> TreesOk() && DerivedTrees()
    {
      var dead := set p | p in entries && DeadTombstone(gcWatermark, entries[p]);
      count := |dead|;
      PruneIsRemoval(entries, gcWatermark, dead);
      ghost var kept := Prune(entries, gcWatermark);
      if count > 0 {
        entries := map p | p in entries && p !in dead :: entries[p];
        assert entries == kept && IndexOk(kept);
        RebuildTrees();
      }
    }

    static lemma PruneIsRemoval(idx: Index, w: Watermark, dead: set<Text>)
      requires dead == set p | p in idx && DeadTombstone(w, idx[p])
      ensures Prune(idx, w) == map p | p in idx && p !in dead :: idx[p]
      ensures |dead| == 0 <==> Prune(idx, w) == idx
    {
      if dead == {} {
        assert Prune(idx, w) == idx;
      } else {
        var p :| p in dead;
        assert p in idx && p !in Prune(idx, w);
      }
    }

    /** The loop of `merge_gc_watermark`. */
    method MergeMarks(incoming: Watermark) returns (changed: bool)
      modifies this`gcWatermark
      ensures gcWatermark == JoinMarks(old(gcWatermark), incoming)
      ensures changed <==> Raises(old(gcWatermark), incoming)
    {
      changed := false;
      var todo := incoming.Keys;
      ghost var base, part: Watermark := gcWatermark, map[];
      while todo != {}
        invariant todo <= incoming.Keys && part.Keys == incoming.Keys - todo
        invariant forall o :: o in part ==> part[o] == incoming[o]
        invariant gcWatermark == JoinMarks(base, part)
        invariant changed <==> Raises(base, part)
      {
        var o :| o in todo;
        MergeOne(base, part, o, incoming[o]);
        part := part[o := incoming[o]];
        if Mark(gcWatermark, o) < incoming[o] {
          gcWatermark := gcWatermark[o := incoming[o]];
          changed := true;
        } else {
          gcWatermark := gcWatermark[o := Mark(gcWatermark, o)];
        }
        todo := todo - {o};
      }
      assert part == incoming;
    }

    /** `merge_gc_watermark`. */
    method MergeGcWatermark(incoming: Watermark) returns (changed: bool, pruned: nat)
      requires Sound()
      modifies this`lamport, this`gcWatermark, this`entries, this`tree, this`liveTree
      ensures View() == MergeWatermark(old(View()), incoming)
      ensures changed <==> Raises(old(gcWatermark), incoming)
      ensures pruned == 0 <==> entries == old(entries)
      ensures Sound() && (old(Valid()) || pruned > 0 ==> Valid())
      ensures pruned > 0 ==> DerivedTrees()
      ensures pruned == 0 ==> tree == old(tree) && liveTree == old(liveTree)
    {
      changed := MergeMarks(incoming);
      if changed {
        var own := Mark(gcWatermark, origin);
        if lamport < own { lamport := own; }
      }
      pruned := PruneTombstones();
      if pruned > 0 { lamport := lamport + 1; }
      MergeOk(old(View()), incoming);
    }

    static lemma MergeOne(base: Watermark, part: Watermark, o: Text, n: nat)
      requires o !in part
      ensures JoinMarks(base, part[o := n]) == JoinMarks(base, part)[o := Max(Mark(JoinMarks(base, part), o), n)]
      ensures Mark(JoinMarks(base, part), o) == Mark(base, o)
      ensures Raises(base, part[o := n]) <==> Raises(base, part) || Mark(base, o) < n
    {
      if x :| x in part && Mark(base, x) < part[x] {
        assert part[o := n][x] == part[x];
      }
      if Mark(base, o) < n {
        assert part[o := n][o] == n;
      }
      if x :| x in part[o := n] && Mark(base, x) < part[o := n][x] {
        if x != o { assert part[x] == part[o := n][x]; }
      }
    }

    /** The loop of `gc_tombstones_for_converged_root`. */
    static method TombstoneMarks(idx: Index) returns (marks: Watermark)
      ensures IsMarks(marks, idx)
    {
      marks := map[];
      var todo := idx.Keys;
      ghost var part: Index := map[];
      while todo != {}
        invariant todo <= idx.Keys && part == Without(idx, todo)
        invariant IsMarks(marks, part)
      {
        var p :| p in todo;
        MarkStep(marks, part, p, idx[p]);
        part := part[p := idx[p]];
        if idx[p].kind == Tombstone {
          var v := idx[p].version;
          marks := marks[v.origin := Max(Mark(marks, v.origin), v.lamport)];
        }
        todo := todo - {p};
      }
      assert part == idx;
    }

    /** `gc_tombstones_for_converged_root`. */
    method GcTombstonesForConvergedRoot() returns (pruned: nat)
      requires Sound()
      modifies this`lamport, this`gcWatermark, this`entries, this`tree, this`liveTree
      ensures Collects(old(View()), View())
      ensures Sound() && (old(Valid()) || pruned > 0 ==> Valid())
      ensures entries == LivePart(old(entries))
      ensures pruned > 0 <==> HasTombstone(old(entries))
      ensures pruned > 0 ==> tree == liveTree
    {
      var marks := TombstoneMarks(entries);
      ghost var before := View();
      pruned := 0;
      if marks != map[] {
        SomeMarks(before, marks);
        var changed;
        changed, pruned := MergeGcWatermark(marks);
        if pruned > 0 { LiveTreesEqual(); }
      } else {
        NoMarks(entries, marks);
      }
      CollectLeavesLive(before, View());
    }

    static function Without(idx: Index, ps: set<Text>): Index {
      map p | p in idx && p !in ps :: idx[p]
    }

    static lemma MarkStep(m: Watermark, idx: Index, p: Text, e: Entry)
      requires IsMarks(m, idx) && p !in idx
      ensures e.kind != Tombstone ==> IsMarks(m, idx[p := e])
      ensures e.kind == Tombstone ==>
        IsMarks(m[e.version.origin := Max(Mark(m, e.version.origin), e.version.lamport)], idx[p := e])
    {
      var o, after := e.version.origin, idx[p := e];
      forall x | x in m ensures exists q :: TopTombstone(after, q, x, m[x]) {
        var q :| TopTombstone(idx, q, x, m[x]);
        assert TopTombstone(after, q, x, m[x]);
      }
      if e.kind == Tombstone {
        var n := m[o := Max(Mark(m, o), e.version.lamport)];
        assert n[o] == e.version.lamport || (o in m && n[o] == m[o]);
        if n[o] == e.version.lamport { assert TopTombstone(after, p, o, n[o]); }
        forall x | x in n ensures exists q :: TopTombstone(after, q, x, n[x]) {
          if x != o { assert x in m; }
        }
      }
    }

    /** With no tombstones left, the two derived trees are the same. */
    lemma LiveTreesEqual()
      requires TreesOk() && DerivedTrees() && forall p :: p in entries ==> Live(entries[p])
      ensures tree == liveTree
    {
      assert LivePart(entries) == entries;
      assert tree.nodes.Keys == liveTree.nodes.Keys;
      SnapshotUnique(hash, tree, liveTree, entries);
    }
  }

  lemma UpdatedTight(keys: set<Text>, idx0: Index, idx: Index, changed: seq<Text>, after: set<Text>)
    requires Tight(keys, idx0) && Covers(changed, idx0, idx)
    requires forall k :: k in after <==> Survives(keys, idx, changed, k)
    ensures Tight(after, idx)
  {
    forall k | k in after ensures Canonical(idx, k) { UpdateTight(keys, idx0, idx, changed, k); }
  }
}
