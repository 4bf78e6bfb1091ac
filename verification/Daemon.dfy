/** src/daemon.rs: root reports, the collection trigger, and what a sync-state
    announcement does to the node that receives it. */
module Daemons {
  import opened Bytes
  import opened Entries
  import opened TreeBuild
  import opened Replicas
  import opened Collection
  import opened FolderStates

  datatype RootReport = RootReport(stateRoot: Digest, lamport: nat)

  type Reports = map<Text, RootReport>

  /** A `SyncState` announcement, or with an empty watermark a `FilesystemChanged` one. */
  datatype Announcement = Announcement(origin: Text, stateRoot: Digest, lamport: nat, watermark: Watermark)

  /** The report kept for each origin is the latest by clock; ties go to the newcomer. */
  function Record(reports: Reports, origin: Text, report: RootReport): Reports {
    if origin in reports && report.lamport < reports[origin].lamport then reports
    else reports[origin := report]
  }

  function RecordAll(reports: Reports, ms: seq<Announcement>): Reports
    decreases |ms|
  {
    if ms == [] then reports
    else RecordAll(Record(reports, ms[0].origin, RootReport(ms[0].stateRoot, ms[0].lamport)), ms[1..])
  }

  ghost predicate Made(m: Announcement, o: Text, r: RootReport) {
    m.origin == o && r == RootReport(m.stateRoot, m.lamport)
  }

  /** Whatever order announcements arrive in, the report kept for an origin is one that was
      made, and none that was received has a larger clock. */
  lemma {:induction false} RecordAllLatest(reports: Reports, ms: seq<Announcement>, o: Text)
    ensures forall m :: m in ms && m.origin == o ==>
      o in RecordAll(reports, ms) && m.lamport <= RecordAll(reports, ms)[o].lamport
    ensures o in reports ==>
      o in RecordAll(reports, ms) && reports[o].lamport <= RecordAll(reports, ms)[o].lamport
    ensures o in RecordAll(reports, ms) ==>
      || (o in reports && RecordAll(reports, ms)[o] == reports[o])
      || exists m :: m in ms && Made(m, o, RecordAll(reports, ms)[o])
    decreases |ms|
  {
    if ms != [] {
      var next := Record(reports, ms[0].origin, RootReport(ms[0].stateRoot, ms[0].lamport));
      RecordAllLatest(next, ms[1..], o);
      var r := RecordAll(reports, ms);
      if o in r && !(o in reports && r[o] == reports[o]) {
        if m :| m in ms[1..] && Made(m, o, r[o]) {
          assert m in ms;
        } else {
          assert ms[0] in ms && Made(ms[0], o, r[o]);
        }
      }
    }
  }

  /** Of the announcements an origin made, `i` is the last with the largest clock. */
  ghost predicate LastLatest(ms: seq<Announcement>, o: Text, i: nat) {
    && i < |ms| && ms[i].origin == o
    && forall j :: 0 <= j < |ms| && ms[j].origin == o ==>
         ms[j].lamport < ms[i].lamport || (ms[j].lamport == ms[i].lamport && j <= i)
  }

  lemma LastLatestTail(ms: seq<Announcement>, o: Text, i: nat)
    requires ms != [] && LastLatest(ms[1..], o, i)
    requires ms[0].origin == o ==> ms[0].lamport <= ms[1..][i].lamport
    ensures LastLatest(ms, o, i + 1) && ms[i + 1] == ms[1..][i]
  {
    forall j | 0 <= j < |ms| && ms[j].origin == o
      ensures ms[j].lamport < ms[i + 1].lamport || (ms[j].lamport == ms[i + 1].lamport && j <= i + 1)
    {
      if j > 0 { assert ms[1..][j - 1] == ms[j]; }
    }
  }

  lemma LastLatestFirst(ms: seq<Announcement>, o: Text)
    requires ms != [] && ms[0].origin == o && forall m :: m in ms[1..] && m.origin == o ==> m.lamport < ms[0].lamport
    ensures LastLatest(ms, o, 0)
  {
    forall j | 0 < j < |ms| && ms[j].origin == o ensures ms[j].lamport < ms[0].lamport {
      assert ms[1..][j - 1] in ms[1..];
    }
  }

  /** The report kept is that of the last announcement with the largest clock, so that a root
      which moves while the clock stands still is noticed. */
  lemma {:induction false} RecordAllLast(reports: Reports, ms: seq<Announcement>, o: Text)
    ensures o in RecordAll(reports, ms) <==> o in reports || exists m :: m in ms && m.origin == o
    ensures o in RecordAll(reports, ms) ==>
      || (o in reports && RecordAll(reports, ms)[o] == reports[o]
          && forall m :: m in ms && m.origin == o ==> m.lamport < reports[o].lamport)
      || ((exists i: nat :: LastLatest(ms, o, i) && Made(ms[i], o, RecordAll(reports, ms)[o]))
          && (o in reports ==> reports[o].lamport <= RecordAll(reports, ms)[o].lamport))
    decreases |ms|
  {
    if ms != [] {
      var next := Record(reports, ms[0].origin, RootReport(ms[0].stateRoot, ms[0].lamport));
      RecordAllLast(next, ms[1..], o);
      assert ms == [ms[0]] + ms[1..];
      var r := RecordAll(reports, ms);
      if o in r {
        if i: nat :| LastLatest(ms[1..], o, i) && Made(ms[1..][i], o, r[o]) {
          LastLatestTail(ms, o, i);
        } else if ms[0].origin == o && next[o] == RootReport(ms[0].stateRoot, ms[0].lamport) && next != reports {
          LastLatestFirst(ms, o);
        }
      }
    }
  }

  /** ... and of whatever a node has heard since it started. */
  lemma KeptIsLast(ms: seq<Announcement>, o: Text)
    ensures o in RecordAll(map[], ms) <==> exists m :: m in ms && m.origin == o
    ensures o in RecordAll(map[], ms) ==>
      exists i: nat :: LastLatest(ms, o, i) && Made(ms[i], o, RecordAll(map[], ms)[o])
  {
    RecordAllLast(map[], ms, o);
  }

  predicate AllMatch(reports: Reports, root: Digest, ids: set<Text>) {
    forall id :: id in ids ==> id in reports && reports[id].stateRoot == root
  }

  /** The watermark of an announcement is merged unless it is empty. */
  function Absorb(r: Replica, w: Watermark): Replica {
    if w == map[] then r else MergeWatermark(r, w)
  }

  /** Whatever is announced, afterwards the marks are the higher ones of the two watermarks, the
      tombstones that the announced one covers are gone and nothing else is, and the clock has
      caught up with the mark for the node itself, and is one past it if anything went. */
  lemma Absorbed(r: Replica, w: Watermark)
    requires RepOk(r)
    ensures
      var after, caughtUp := Absorb(r, w), Max(r.lamport, Mark(w, r.origin));
      && (forall o :: Mark(after.watermark, o) == Max(Mark(r.watermark, o), Mark(w, o)))
      && after.lamport == (if Forgets(r, after) then caughtUp + 1 else caughtUp)
      && forall p :: p in r.entries ==>
           var e := r.entries[p];
           if e.kind == Tombstone && e.version.origin in w && e.version.lamport <= w[e.version.origin]
           then p !in after.entries
           else p in after.entries && after.entries[p] == e
  {
    MergeClock(r, w);
    forall o ensures Mark(Absorb(r, w).watermark, o) == Max(Mark(r.watermark, o), Mark(w, o)) {
      MarkJoin(r.watermark, w, o);
    }
  }

  class RootReports {
    var reports: Reports

    constructor ()
      ensures reports == map[]
    {
      reports := map[];
    }

    /** `RootReports::update`. */
    method Update(origin: Text, report: RootReport)
      modifies this
      ensures reports == Record(old(reports), origin, report)
    {
      var apply := origin !in reports || report.lamport >= reports[origin].lamport;
      if apply { reports := reports[origin := report]; }
    }

    /** `RootReports::all_active_match`. */
    method AllActiveMatch(root: Digest, ids: seq<Text>) returns (b: bool)
      ensures b <==> AllMatch(reports, root, set id | id in ids)
      ensures b <==> forall id :: id in ids ==> id in reports && reports[id].stateRoot == root
    {
      for i := 0 to |ids|
        invariant forall id :: id in ids[..i] ==> id in reports && reports[id].stateRoot == root
      {
        if ids[i] !in reports || reports[ids[i]].stateRoot != root {
          assert ids[i] in set id | id in ids;
          return false;
        }
      }
      assert ids[..|ids|] == ids;
      return true;
    }
  }

  /** The part of `handle_announcement` that touches replicated state: an announcement is
      ignored unless its origin is the authenticated peer, another node and an active member;
      its watermark is merged before its root is recorded. */
  method HandleAnnouncement(state: FolderState, reports: RootReports, peer: Text, active: set<Text>, m: Announcement)
    requires state.Sound()
    modifies state`lamport, state`gcWatermark, state`entries, state`tree, state`liveTree, reports
    ensures state.Sound() && (old(state.Valid()) ==> state.Valid())
    ensures if m.origin == peer && m.origin != state.origin && m.origin in active
      then state.View() == Absorb(old(state.View()), m.watermark)
        && reports.reports == Record(old(reports.reports), m.origin, RootReport(m.stateRoot, m.lamport))
      else state.View() == old(state.View()) && reports.reports == old(reports.reports)
  {
    if m.origin != peer { return; }
    if m.origin == state.origin { return; }
    if m.origin !in active { return; }
    if m.watermark != map[] {
      var _, _ := state.MergeGcWatermark(m.watermark);
    }
    reports.Update(m.origin, RootReport(m.stateRoot, m.lamport));
  }

  /** `maybe_gc_tombstones`. The root compared is the one the tree holds, also when a failed
      batch has left the tree behind the index. */
  method MaybeGcTombstones(state: FolderState, reports: RootReports, activePeers: seq<Text>) returns (pruned: nat)
    requires state.Sound()
    modifies state`lamport, state`gcWatermark, state`entries, state`tree, state`liveTree
    ensures state.Sound() && (old(state.Valid()) || pruned > 0 ==> state.Valid())
    ensures AllMatch(reports.reports, old(state.tree).rootHash, set id | id in activePeers) ==>
      && Collects(old(state.View()), state.View()) && state.entries == LivePart(old(state.entries))
      && (pruned > 0 <==> HasTombstone(old(state.entries)))
    ensures !AllMatch(reports.reports, old(state.tree).rootHash, set id | id in activePeers) ==>
      && pruned == 0 && state.View() == old(state.View())
      && state.tree == old(state.tree) && state.liveTree == old(state.liveTree)
  {
    var root := state.tree.rootHash;
    var converged := reports.AllActiveMatch(root, activePeers);
    if !converged { return 0; }
    pruned := state.GcTombstonesForConvergedRoot();
  }
}
