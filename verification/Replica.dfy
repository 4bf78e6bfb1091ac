/** What the operations of `FolderState` (src/state.rs) do to the index, the
    clock and the watermark, as functions on values. FolderState.dfy proves its
    methods against these functions; the lemmas of the other files are about them.
    A `Log` pairs the replica with the list of changes the source accumulates. */
module Replicas {
  import opened Wrappers
  import opened Bytes
  import opened Paths
  import opened Entries
  import opened Tree
  import opened Ignore

  type Watermark = map<Text, nat>

  datatype Replica = Replica(origin: Text, lamport: nat, watermark: Watermark, entries: Index)

  datatype Change = Change(path: Text, prev: Option<Entry>, next: Entry)

  datatype Log = Log(rep: Replica, changes: seq<Change>)

  function Lookup(idx: Index, p: Text): Option<Entry> {
    if p in idx then Some(idx[p]) else None
  }

  function Max(a: nat, b: nat): nat { if a < b then b else a }

  // ---------- the watermark ----------

  /** `is_version_gced`. */
  predicate Covered(w: Watermark, v: Version) {
    v.origin in w && v.lamport <= w[v.origin]
  }

  function Mark(w: Watermark, origin: Text): nat {
    if origin in w then w[origin] else 0
  }

  /** A tombstone the watermark says is dead. */
  predicate DeadTombstone(w: Watermark, e: Entry) {
    e.kind == Tombstone && Covered(w, e.version)
  }

  // ---------- the node invariant ----------

  /** The clock has reached every stored version and the node's own watermark,
      and no stored tombstone is covered by the watermark. */
  ghost predicate RepOk(r: Replica) {
    && IndexOk(r.entries)
    && (forall p :: p in r.entries ==> r.entries[p].version.lamport <= r.lamport)
    && Mark(r.watermark, r.origin) <= r.lamport
    && (forall p :: p in r.entries ==> !DeadTombstone(r.watermark, r.entries[p]))
  }

  // ---------- local writes ----------

  function NextVersion(r: Replica): Version {
    Version(r.lamport + 1, r.origin)
  }

  /** Store `e` under a fresh version. */
  function Mint(l: Log, e: Entry): Log {
    var next := e.(version := NextVersion(l.rep));
    Log(l.rep.(lamport := l.rep.lamport + 1, entries := l.rep.entries[e.path := next]),
        l.changes + [Change(e.path, Lookup(l.rep.entries, e.path), next)])
  }

  function TombstoneOne(l: Log, p: Text): Log {
    if p in l.rep.entries && Live(l.rep.entries[p])
    then Mint(l, TombstoneOf(p, l.rep.entries[p], NextVersion(l.rep)))
    else l
  }

  function TombstoneAll(l: Log, ps: seq<Text>): Log
    decreases |ps|
  {
    if ps == [] then l else TombstoneAll(TombstoneOne(l, ps[0]), ps[1..])
  }

  function StrictlyBelow(idx: Index, p: Text): seq<Text> {
    Sorted(set q | q in idx && Below(q, p))
  }

  function AtOrBelow(idx: Index, p: Text): seq<Text> {
    Sorted(set q | q in idx && (q == p || Below(q, p)))
  }

  /** `tombstone_child_descendants`. */
  function TombstoneBelow(l: Log, p: Text): Log {
    TombstoneAll(l, StrictlyBelow(l.rep.entries, p))
  }

  /** `tombstone_descendants`: the path has disappeared from disk. */
  function Remove(l: Log, p: Text): Log {
    TombstoneAll(l, AtOrBelow(l.rep.entries, p))
  }

  /** `update_entry`: the path was seen on disk in state `live`. */
  function Observe(l: Log, live: Entry): Log {
    var existing := Lookup(l.rep.entries, live.path);
    if existing.Some? && SameObserved(existing.value, live) then l
    else if existing.Some? && existing.value.kind == Dir && live.kind != Dir
    then TombstoneBelow(Mint(l, live), live.path)
    else Mint(l, live)
  }

  function ObserveAll(l: Log, lives: seq<Entry>): Log
    decreases |lives|
  {
    if lives == [] then l else ObserveAll(Observe(l, lives[0]), lives[1..])
  }

  function InOrder(idx: Index, ks: seq<Text>): (es: seq<Entry>)
    requires forall k :: k in ks ==> k in idx
    ensures |es| == |ks| && forall i :: 0 <= i < |ks| ==> es[i] == idx[ks[i]]
  {
    seq(|ks|, i requires 0 <= i < |ks| => idx[ks[i]])
  }

  /** The entries of an index in path order. */
  function Listed(idx: Index): seq<Entry> {
    InOrder(idx, Sorted(idx.Keys))
  }

  /** What a scan of the folder found. */
  datatype Scan = Scan(found: Index, unstable: set<Text>, rules: seq<Rule>)

  /** The paths a rescan holds to be gone, among `ps`. */
  ghost function Unseen(scan: Scan, ps: seq<Text>): (r: seq<Text>)
    ensures forall p :: p in r <==>
      p in ps && p !in scan.found && p !in scan.unstable && !ShouldIgnore(p, scan.rules)
  {
    if ps == [] then []
    else if ps[0] in scan.found || ps[0] in scan.unstable || ShouldIgnore(ps[0], scan.rules)
    then Unseen(scan, ps[1..])
    else [ps[0]] + Unseen(scan, ps[1..])
  }

  /** `rescan`. */
  ghost function Rescan(l: Log, scan: Scan): Log {
    var seen := ObserveAll(l, Listed(scan.found));
    TombstoneAll(seen, Unseen(scan, Sorted(seen.rep.entries.Keys)))
  }

  /** One filesystem event, with what the disk shows at that path. */
  datatype Event =
    | Gone(path: Text)
    | Leaf(live: Entry)                          // a stable file or supported symlink
    | Folder(live: Entry, contents: Index)       // a directory and its scanned contents
    | Skipped(path: Text)                        // unstable, unsupported, or outside the folder

  function EventPath(ev: Event): Text {
    match ev
    case Gone(p) => p
    case Leaf(live) => live.path
    case Folder(live, _) => live.path
    case Skipped(p) => p
  }

  /** `apply_one_path`. */
  ghost function ApplyEvent(l: Log, ev: Event, rules: seq<Rule>): Log {
    if ShouldIgnore(EventPath(ev), rules) then l
    else match ev
      case Gone(p) => Remove(l, p)
      case Leaf(live) => Observe(l, live)
      case Folder(live, contents) => ObserveAll(Observe(l, live), Listed(contents))
      case Skipped(_) => l
  }

  ghost function ApplyEvents(l: Log, evs: seq<Event>, rules: seq<Rule>): Log
    decreases |evs|
  {
    if evs == [] then l else ApplyEvents(ApplyEvent(l, evs[0], rules), evs[1..], rules)
  }

  /** An event at the ignore-rule file itself. */
  predicate RulesTouched(evs: seq<Event>) {
    exists i :: 0 <= i < |evs| && EventPath(evs[i]) == Ascii(".nolil")
  }

  /** `apply_paths`: a full rescan if the ignore rules have changed, else event by event. */
  ghost function ApplyAll(l: Log, evs: seq<Event>, rules: seq<Rule>, scan: Scan): Log {
    if RulesTouched(evs) then Rescan(l, scan) else ApplyEvents(l, evs, rules)
  }

  /** The paths of events and scans are relative paths of real files. */
  ghost predicate EventOk(ev: Event) {
    Clean(EventPath(ev)) && (ev.Folder? ==> IndexOk(ev.contents))
  }

  // ---------- remote entries ----------

  /** `validate_remote_path`. */
  predicate ValidRemotePath(p: Text) {
    && p != [] && 0 !in p && BACKSLASH !in p
    && forall c :: c in Split(p, SLASH) ==>
         c != [] && c != [DOT] && c != [DOT, DOT] && !IgnoredName(c)
  }

  /** `validate_symlink_target`: relative, and not stepping outside. A '.' counts
      only in first place, as `Path::components` drops the others. */
  predicate ValidTarget(t: Text) {
    && t != [] && 0 !in t && BACKSLASH !in t && t[0] != SLASH
    && Split(t, SLASH)[0] != [DOT]
    && [DOT, DOT] !in Split(t, SLASH)
  }

  /** `should_accept_remote`. */
  predicate ShouldAccept(r: Replica, e: Entry) {
    && ValidRemotePath(e.path)
    && !DeadTombstone(r.watermark, e)
    && (e.path in r.entries ==> r.entries[e.path].version.Less(e.version))
  }

  /** The remote entry is stored, before anything below it is tombstoned. */
  function Store(l: Log, e: Entry): Log {
    Log(l.rep.(lamport := Max(l.rep.lamport, e.version.lamport), entries := l.rep.entries[e.path := e]),
        l.changes + [Change(e.path, Lookup(l.rep.entries, e.path), e)])
  }

  function Accept(l: Log, e: Entry): Log {
    if e.kind == Dir then Store(l, e) else TombstoneBelow(Store(l, e), e.path)
  }

  /** A remote entry is put to the replica, which takes it or leaves it. */
  function Offer(l: Log, e: Entry): Log {
    if ShouldAccept(l.rep, e) then Accept(l, e) else l
  }

  function OfferAll(l: Log, es: seq<Entry>): Log
    decreases |es|
  {
    if es == [] then l else OfferAll(Offer(l, es[0]), es[1..])
  }

  /** A remote entry as handed to `apply_remote_entries`: whether it comes with a
      downloaded file, and whether the filesystem will let it be installed. */
  datatype Fetched = Fetched(entry: Entry, hasTmp: bool, installs: bool)

  /** `apply_remote_entry_core`. */
  function ApplyOne(l: Log, f: Fetched): Result<Log> {
    var e := f.entry;
    if !ValidRemotePath(e.path) then Err(InvalidInput)
    else if !ShouldAccept(l.rep, e) then Ok(l)
    else if e.kind == File && !f.hasTmp then Err(InvalidInput)
    else if e.kind == Symlink && (e.symlinkTarget.None? || !ValidTarget(e.symlinkTarget.value)) then Err(InvalidInput)
    else if !f.installs then Err(Storage)
    else Ok(Accept(l, e))
  }

  /** How far a batch got, and the error that stopped it, if any. */
  datatype BatchResult = BatchResult(log: Log, failed: Option<Error>)

  function ApplyBatch(l: Log, batch: seq<Fetched>): BatchResult
    decreases |batch|
  {
    if batch == [] then BatchResult(l, None)
    else match ApplyOne(l, batch[0])
      case Err(e) => BatchResult(l, Some(e))
      case Ok(next) => ApplyBatch(next, batch[1..])
  }

  /** How many items get through before the first that fails. */
  function Through(l: Log, batch: seq<Fetched>): (n: nat)
    ensures n <= |batch|
    decreases |batch|
  {
    if batch == [] then 0
    else match ApplyOne(l, batch[0])
      case Err(_) => 0
      case Ok(next) => 1 + Through(next, batch[1..])
  }

  function EntriesIn(batch: seq<Fetched>): (es: seq<Entry>)
    ensures |es| == |batch| && forall i :: 0 <= i < |es| ==> es[i] == batch[i].entry
  {
    seq(|batch|, i requires 0 <= i < |batch| => batch[i].entry)
  }

  // ---------- garbage collection ----------

  /** Pointwise maximum of two watermarks. */
  function JoinMarks(a: Watermark, b: Watermark): Watermark {
    map o | o in a.Keys + b.Keys :: Max(Mark(a, o), Mark(b, o))
  }

  predicate Raises(a: Watermark, b: Watermark) {
    exists o :: o in b && Mark(a, o) < b[o]
  }

  /** The index without its dead tombstones. */
  function Prune(idx: Index, w: Watermark): Index {
    map p | p in idx && !DeadTombstone(w, idx[p]) :: idx[p]
  }

  /** `merge_gc_watermark`. */
  function MergeWatermark(r: Replica, incoming: Watermark): Replica {
    var w := JoinMarks(r.watermark, incoming);
    var kept := Prune(r.entries, w);
    var clock := if Raises(r.watermark, incoming) then Max(r.lamport, Mark(w, r.origin)) else r.lamport;
    Replica(r.origin, if kept == r.entries then clock else clock + 1, w, kept)
  }

  /** `m` holds, for each origin with a tombstone, its highest tombstone clock. */
  ghost predicate IsMarks(m: Watermark, idx: Index) {
    && (forall p :: p in idx && idx[p].kind == Tombstone ==> Covered(m, idx[p].version))
    && (forall o :: o in m ==> exists p :: TopTombstone(idx, p, o, m[o]))
  }

  ghost predicate TopTombstone(idx: Index, p: Text, o: Text, n: nat) {
    p in idx && idx[p].kind == Tombstone && idx[p].version == Version(n, o)
  }

  /** There is only one such watermark, so a collection has only one outcome. */
  lemma MarksUnique(m: Watermark, n: Watermark, idx: Index)
    requires IsMarks(m, idx) && IsMarks(n, idx)
    ensures m == n
  {
    forall o | o in m ensures o in n && m[o] <= n[o] { var p :| TopTombstone(idx, p, o, m[o]); }
    forall o | o in n ensures o in m && n[o] <= m[o] { var p :| TopTombstone(idx, p, o, n[o]); }
  }

  /** `gc_tombstones_for_converged_root`: `r2` is what it leaves of `r`. */
  ghost predicate Collects(r: Replica, r2: Replica) {
    exists m :: IsMarks(m, r.entries) && r2 == if m == map[] then r else MergeWatermark(r, m)
  }

  lemma CollectsUnique(r: Replica, a: Replica, b: Replica)
    requires Collects(r, a) && Collects(r, b)
    ensures a == b
  {
    var m :| IsMarks(m, r.entries) && a == if m == map[] then r else MergeWatermark(r, m);
    var n :| IsMarks(n, r.entries) && b == if n == map[] then r else MergeWatermark(r, n);
    MarksUnique(m, n, r.entries);
  }
}
