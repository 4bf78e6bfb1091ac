/** Building runs of the group step by step, for the runs in which things go wrong. */
module NetworkScenes {
  import opened Wrappers
  import opened Bytes
  import opened Paths
  import opened Entries
  import opened Tree
  import opened TreeUpdate
  import opened Ignore
  import opened Validation
  import opened Replicas
  import opened ReplicaFacts
  import opened FolderStates
  import opened Daemons
  import opened Network
  import opened NetworkTraces
  import opened NetworkRuns

  // ---------- a node, with the smallest tree for what it shows ----------

  datatype Node = Node(rep: Replica, shown: Index, reports: Reports, hidden: set<Entry>)

  /** A node whose tree shows its index. */
  function Plain(rep: Replica, reports: Reports): Node {
    Node(rep, rep.entries, reports, {})
  }

  function New(k: Text): Node {
    Plain(Replica(k, 0, map[], map[]), map[])
  }

  ghost predicate Is(h: Hasher, w: World, k: Text, n: Node) {
    && k in w.peers && k in w.shown && k in w.hidden && IndexOk(n.shown)
    && w.peers[k] == Peer(n.rep, Snapshot(h, n.shown), n.reports)
    && w.shown[k] == n.shown && w.hidden[k] == n.hidden
  }

  /** The nodes of `w` are as `cast` says. */
  ghost predicate Plays(h: Hasher, w: World, cast: map<Text, Node>) {
    && w.peers.Keys == w.shown.Keys == w.hidden.Keys == w.newest.Keys == cast.Keys
    && forall k :: k in cast ==> Is(h, w, k, cast[k])
  }

  lemma Acting(h: Hasher, w: World, cast: map<Text, Node>, k: Text)
    requires Plays(h, w, cast) && k in cast
    ensures Is(h, w, k, cast[k])
  {
  }

  ghost predicate Playable(h: Hasher, play: iset<Text>, idx: Index) {
    IndexOk(idx) && InPlay(play, Snapshot(h, idx), idx)
  }

  ghost function HeardNow(w: World, a: Action): Reports
    requires a.node in w.peers
  {
    if a.Deliver? then Heard(w.peers[a.node].reports, a.message) else w.peers[a.node].reports
  }

  /** The node may act so, and comes out of it as `n`. */
  ghost predicate Turn(h: Hasher, play: iset<Text>, w: World, a: Action, n: Node) {
    && Enabled(w, a) && a.node in w.shown && a.node in w.hidden && RepStep(w, a, n.rep)
    && n.shown == ShownAfter(w, a, n.rep.entries) && n.hidden == HiddenAfter(w, a, n.rep.entries)
    && n.reports == HeardNow(w, a) && Playable(h, play, n.shown)
  }

  ghost function After(h: Hasher, w: World, a: Action, n: Node): World
    requires a.node in w.peers && a.node in w.newest && IndexOk(n.shown)
  {
    World(w.peers[a.node := Peer(n.rep, Snapshot(h, n.shown), n.reports)],
          if a.Announce? then w.sent + {a.message} else w.sent,
          w.issued + NextEntries(Effect(w, a).changes),
          w.newest[a.node := w.newest[a.node] + n.rep.entries],
          w.shown[a.node := n.shown],
          w.hidden[a.node := n.hidden])
  }

  lemma SameKeys<T>(m: map<Text, T>, k: Text, x: T)
    requires k in m
    ensures m[k := x].Keys == m.Keys
  {
  }

  lemma AfterTrees(h: Hasher, play: iset<Text>, w: World, a: Action, n: Node)
    requires Turn(h, play, w, a, n) && a.node in w.newest && w.shown.Keys == w.hidden.Keys == w.peers.Keys
    requires IndexOk(w.shown[a.node]) && w.peers[a.node].tree == Snapshot(h, w.shown[a.node])
    ensures TreeStep(h, play, w, a, After(h, w, a, n))
  {
  }

  lemma AfterData(h: Hasher, play: iset<Text>, w: World, a: Action, n: Node)
    requires Turn(h, play, w, a, n) && a.node in w.newest
    ensures
      var v := After(h, w, a, n);
      && v.peers.Keys == w.peers.Keys && (forall k :: k in w.peers && k != a.node ==> v.peers[k] == w.peers[k])
      && RepStep(w, a, v.peers[a.node].rep) && v.peers[a.node].reports == HeardNow(w, a)
  {
    SameKeys(w.peers, a.node, After(h, w, a, n).peers[a.node]);
  }

  lemma AfterNext(h: Hasher, play: iset<Text>, w: World, a: Action, n: Node)
    requires Turn(h, play, w, a, n) && w.newest.Keys == w.shown.Keys == w.hidden.Keys == w.peers.Keys
    requires IndexOk(w.shown[a.node]) && w.peers[a.node].tree == Snapshot(h, w.shown[a.node])
    ensures Next(h, play, w, a, After(h, w, a, n))
  {
    AfterTrees(h, play, w, a, n);
    AfterData(h, play, w, a, n);
  }

  lemma AfterIs(h: Hasher, w: World, a: Action, n: Node, k: Text, was: Node)
    requires a.node in w.peers && a.node in w.newest && IndexOk(n.shown) && Is(h, w, k, was)
    ensures Is(h, After(h, w, a, n), k, if k == a.node then n else was)
  {
  }

  lemma AfterKeys(h: Hasher, w: World, a: Action, n: Node, keys: set<Text>)
    requires w.peers.Keys == w.shown.Keys == w.hidden.Keys == w.newest.Keys == keys
    requires a.node in keys && IndexOk(n.shown)
    ensures
      var v := After(h, w, a, n);
      v.peers.Keys == v.shown.Keys == v.hidden.Keys == v.newest.Keys == keys
  {
    SameKeys(w.peers, a.node, After(h, w, a, n).peers[a.node]);
    SameKeys(w.newest, a.node, After(h, w, a, n).newest[a.node]);
    SameKeys(w.shown, a.node, n.shown);
    SameKeys(w.hidden, a.node, n.hidden);
  }

  lemma AfterPlays(h: Hasher, w: World, a: Action, cast: map<Text, Node>, n: Node)
    requires Plays(h, w, cast) && a.node in cast && IndexOk(n.shown)
    ensures Plays(h, After(h, w, a, n), cast[a.node := n])
  {
    AfterKeys(h, w, a, n, cast.Keys);
    SameKeys(cast, a.node, n);
    forall k | k in cast.Keys ensures Is(h, After(h, w, a, n), k, cast[a.node := n][k]) {
      AfterIs(h, w, a, n, k, cast[k]);
    }
  }

  lemma Taken(h: Hasher, play: iset<Text>, w: World, a: Action, cast: map<Text, Node>, n: Node) returns (v: World)
    requires Plays(h, w, cast) && Turn(h, play, w, a, n)
    ensures Next(h, play, w, a, v) && Plays(h, v, cast[a.node := n])
    ensures v.sent == if a.Announce? then w.sent + {a.message} else w.sent
  {
    assert Is(h, w, a.node, cast[a.node]);
    v := After(h, w, a, n);
    AfterNext(h, play, w, a, n);
    AfterPlays(h, w, a, cast, n);
  }

  // ---------- a trace with one careless step ----------

  /** A trace in which at most step `late` is taken without caution. */
  ghost predicate CarefulBut(h: Hasher, play: iset<Text>, ws: seq<World>, acts: seq<Action>, late: nat) {
    && Trace(h, play, ws, acts)
    && forall n {:trigger Careful(ws, acts, n)} :: 0 <= n < |acts| && n != late ==> Careful(ws, acts, n)
  }

  /** The last state of a trace. */
  ghost function Now(ws: seq<World>): World
    requires ws != []
  {
    ws[|ws| - 1]
  }

  lemma StepAt(h: Hasher, play: iset<Text>, ws: seq<World>, acts: seq<Action>, a: Action, v: World, n: nat)
    requires Trace(h, play, ws, acts) && Next(h, play, Now(ws), a, v) && n <= |acts|
    ensures Step(h, play, ws + [v], acts + [a], n)
  {
    if n < |acts| {
      assert (ws + [v])[n] == ws[n] && (ws + [v])[n + 1] == ws[n + 1] && (acts + [a])[n] == acts[n];
      assert Step(h, play, ws, acts, n);
    } else {
      assert (ws + [v])[n] == Now(ws) && (ws + [v])[n + 1] == v && (acts + [a])[n] == a;
    }
  }

  lemma LongerTrace(h: Hasher, play: iset<Text>, ws: seq<World>, acts: seq<Action>, a: Action, v: World)
    requires Trace(h, play, ws, acts) && Next(h, play, Now(ws), a, v)
    ensures Trace(h, play, ws + [v], acts + [a])
  {
    var vs, more := ws + [v], acts + [a];
    assert vs[0] == ws[0];
    forall n: nat | n < |more| ensures Step(h, play, vs, more, n) { StepAt(h, play, ws, acts, a, v, n); }
  }

  lemma CarefulAt(ws: seq<World>, acts: seq<Action>, a: Action, v: World, n: nat)
    requires |ws| == |acts| + 1 && n <= |acts| && (n < |acts| ==> Careful(ws, acts, n))
    requires n == |acts| ==> Cautious(Now(ws), a)
    ensures Careful(ws + [v], acts + [a], n)
  {
    assert (ws + [v])[n] == ws[n] && (acts + [a])[n] == if n < |acts| then acts[n] else a;
  }

  lemma Longer(h: Hasher, play: iset<Text>, ws: seq<World>, acts: seq<Action>, late: nat, a: Action, v: World)
    requires CarefulBut(h, play, ws, acts, late) && Next(h, play, Now(ws), a, v)
    requires |acts| != late ==> Cautious(Now(ws), a)
    ensures CarefulBut(h, play, ws + [v], acts + [a], late)
  {
    LongerTrace(h, play, ws, acts, a, v);
    forall n: nat | n < |acts + [a]| && n != late ensures Careful(ws + [v], acts + [a], n) {
      CarefulAt(ws, acts, a, v, n);
    }
  }

  /** A story so far: a trace, and how the nodes stand at its end. */
  ghost predicate Story(h: Hasher, play: iset<Text>, ws: seq<World>, acts: seq<Action>, late: nat,
                        cast: map<Text, Node>)
  {
    CarefulBut(h, play, ws, acts, late) && Plays(h, Now(ws), cast)
  }

  lemma StoryLength(h: Hasher, play: iset<Text>, ws: seq<World>, acts: seq<Action>, late: nat, cast: map<Text, Node>)
    requires Story(h, play, ws, acts, late, cast)
    ensures |ws| == |acts| + 1
  {
  }

  lemma StoryOn(h: Hasher, play: iset<Text>, ws: seq<World>, acts: seq<Action>, late: nat,
                a: Action, v: World, cast: map<Text, Node>)
    requires CarefulBut(h, play, ws + [v], acts + [a], late) && Plays(h, v, cast)
    ensures Story(h, play, ws + [v], acts + [a], late, cast)
  {
    assert Now(ws + [v]) == v;
  }

  /** The story goes on for one step. */
  lemma Tell(h: Hasher, play: iset<Text>, ws: seq<World>, acts: seq<Action>, late: nat, cast: map<Text, Node>,
             a: Action, n: Node) returns (v: World)
    requires Story(h, play, ws, acts, late, cast) && Turn(h, play, Now(ws), a, n)
    requires |acts| != late ==> Cautious(Now(ws), a)
    ensures Story(h, play, ws + [v], acts + [a], late, cast[a.node := n])
    ensures v.sent == if a.Announce? then Now(ws).sent + {a.message} else Now(ws).sent
  {
    v := Taken(h, play, Now(ws), a, cast, n);
    Longer(h, play, ws, acts, late, a, v);
    StoryOn(h, play, ws, acts, late, a, v, cast[a.node := n]);
  }

  ghost function Beginning(h: Hasher, ks: set<Text>): World {
    World(map k | k in ks :: Peer(Replica(k, 0, map[], map[]), Snapshot(h, map[]), map[]), {}, {},
          map k | k in ks :: map[], map k | k in ks :: map[], map k | k in ks :: {})
  }

  lemma Begin(h: Hasher, play: iset<Text>, ks: set<Text>, late: nat)
    requires Playable(h, play, map[])
    ensures Story(h, play, [Beginning(h, ks)], [], late, map k | k in ks :: New(k))
  {
  }

  // ---------- steps of nodes whose tree shows their index ----------

  /** A node whose tree shows its index keeps it so through changes and pulls that succeed. */
  lemma StaysPlain(w: World, a: Action)
    requires Sane(w) && Enabled(w, a) && Updates(w, a) && a.node in w.shown && a.node in w.hidden
    requires w.shown[a.node] == w.peers[a.node].rep.entries && w.hidden[a.node] == {}
    ensures ShownAfter(w, a, Effect(w, a).rep.entries) == Effect(w, a).rep.entries
    ensures HiddenAfter(w, a, Effect(w, a).rep.entries) == {}
  {
    var start, after := Log(w.peers[a.node].rep, []), Effect(w, a);
    assert ReplicaOk(w, a.node);
    if a.Local? {
      EventsGrow(start, a.evs, a.rules);
      GrowsLogged(start, after);
    } else {
      BatchLogged(start, a.batch);
    }
    assert after.changes[0..] == after.changes;
    MixedCovered(w.peers[a.node].tree.nodes.Keys, start.rep.entries, after.rep.entries, PathsOf(after.changes));
  }

  /** The actions that only change a replica. */
  lemma PlainTurn(h: Hasher, play: iset<Text>, ws: seq<World>, acts: seq<Action>, late: nat, cast: map<Text, Node>,
                  a: Action, r: Replica, reports: Reports)
    requires Story(h, play, ws, acts, late, cast) && Enabled(Now(ws), a) && Updates(Now(ws), a)
    requires cast[a.node].shown == cast[a.node].rep.entries && cast[a.node].hidden == {}
    requires cast[a.node].reports == reports && Effect(Now(ws), a).rep == r && Playable(h, play, r.entries)
    ensures Turn(h, play, Now(ws), a, Plain(r, reports)) && Cautious(Now(ws), a)
  {
    TraceSane(h, play, ws, acts, |ws| - 1);
    assert Is(h, Now(ws), a.node, cast[a.node]);
    StaysPlain(Now(ws), a);
  }

  /** What a node announces when it leaves its watermark out. */
  ghost function Word(h: Hasher, k: Text, n: Node): Announcement
    requires IndexOk(n.shown)
  {
    Announcement(k, Snapshot(h, n.shown).rootHash, n.rep.lamport, map[])
  }

  /** What the node may announce. */
  ghost predicate Tells(h: Hasher, k: Text, n: Node, m: Announcement) {
    && IndexOk(n.shown) && m.origin == k && m.stateRoot == Snapshot(h, n.shown).rootHash && m.lamport == n.rep.lamport
    && (m.watermark == n.rep.watermark || m.watermark == map[])
  }

  lemma MayAnnounce(h: Hasher, play: iset<Text>, w: World, cast: map<Text, Node>, k: Text, m: Announcement)
    requires Plays(h, w, cast) && k in cast && Playable(h, play, cast[k].shown) && Tells(h, k, cast[k], m)
    requires forall e :: e in cast[k].hidden ==> !Shows(cast[k].shown, e)
    ensures Turn(h, play, w, Announce(k, m), cast[k])
    ensures cast[k].hidden == {} ==> Cautious(w, Announce(k, m))
  {
    assert Is(h, w, k, cast[k]);
  }

  lemma MayHear(h: Hasher, play: iset<Text>, w: World, cast: map<Text, Node>, k: Text, m: Announcement)
    requires Plays(h, w, cast) && k in cast && Playable(h, play, cast[k].shown)
    requires m in w.sent && m.origin != k && m.watermark == map[] && cast[k].hidden == {}
    ensures Turn(h, play, w, Deliver(k, m), cast[k].(reports := Heard(cast[k].reports, m)))
    ensures Cautious(w, Deliver(k, m))
  {
    assert Is(h, w, k, cast[k]);
  }

  // ---------- the changes of a replica ----------

  lemma NothingBelow(idx: Index, p: Text)
    requires forall q :: q in idx ==> !Below(q, p)
    ensures StrictlyBelow(idx, p) == [] && (p in idx ==> AtOrBelow(idx, p) == [p])
  {
    assert (set q | q in idx && Below(q, p)) == {};
    if p in idx {
      assert (set q | q in idx && (q == p || Below(q, p))) == {p};
      var ks := Sorted({p});
      assert |ks| == 1 && ks[0] in ks && ks == [ks[0]];
    }
  }

  /** An item as it arrives. */
  function Item(e: Entry, installs: bool): Fetched {
    Fetched(e, e.kind == File, installs)
  }

  ghost function Stored(r: Replica, e: Entry): Replica {
    r.(lamport := Max(r.lamport, e.version.lamport), entries := r.entries[e.path := e])
  }

  /** An acceptable entry with nothing below it is stored. */
  lemma StoresOne(l: Log, e: Entry)
    requires ShouldAccept(l.rep, e) && e.kind != Symlink
    requires e.kind == Dir || forall q :: q in l.rep.entries ==> !Below(q, e.path)
    ensures ApplyOne(l, Item(e, true)) == Ok(Store(l, e)) && Store(l, e).rep == Stored(l.rep, e)
  {
    if e.kind != Dir { NothingBelow(Store(l, e).rep.entries, e.path); }
  }

  lemma TakesOne(r: Replica, e: Entry)
    requires ShouldAccept(r, e) && e.kind != Symlink
    requires e.kind == Dir || forall q :: q in r.entries ==> !Below(q, e.path)
    ensures ApplyBatch(Log(r, []), [Item(e, true)]) == BatchResult(Store(Log(r, []), e), None)
    ensures Store(Log(r, []), e).rep == Stored(r, e)
  {
    StoresOne(Log(r, []), e);
    assert [Item(e, true)][1..] == [];
  }

  /** The first of two is stored, and the second cannot be installed. */
  lemma TakesOneOfTwo(r: Replica, e: Entry, f: Entry)
    requires ShouldAccept(r, e) && e.kind != Symlink && ShouldAccept(Stored(r, e), f) && f.kind == Dir
    requires e.kind == Dir || forall q :: q in r.entries ==> !Below(q, e.path)
    ensures ApplyBatch(Log(r, []), [Item(e, true), Item(f, false)]) == BatchResult(Store(Log(r, []), e), Some(Storage))
    ensures Store(Log(r, []), e).rep == Stored(r, e)
  {
    StoresOne(Log(r, []), e);
    var rest := [Item(f, false)];
    assert [Item(e, true), Item(f, false)][1..] == rest;
    assert ApplyOne(Store(Log(r, []), e), rest[0]) == Err(Storage);
  }

  ghost function Written(r: Replica, e: Entry): Entry {
    e.(version := NextVersion(r))
  }

  ghost function Writing(r: Replica, e: Entry): Replica {
    r.(lamport := r.lamport + 1, entries := r.entries[e.path := Written(r, e)])
  }

  /** A path seen for the first time. */
  lemma ObservesNew(l: Log, e: Entry)
    requires e.path !in l.rep.entries
    ensures Observe(l, e) == Mint(l, e) && Mint(l, e).rep == Writing(l.rep, e)
  {
  }

  ghost function Burying(r: Replica, p: Text): Replica
    requires p in r.entries
  {
    r.(lamport := r.lamport + 1, entries := r.entries[p := TombstoneOf(p, r.entries[p], NextVersion(r))])
  }

  /** A live path without anything below it is gone. */
  lemma RemovesOne(l: Log, p: Text)
    requires p in l.rep.entries && Live(l.rep.entries[p]) && forall q :: q in l.rep.entries ==> !Below(q, p)
    ensures Remove(l, p).rep == Burying(l.rep, p) && Remove(l, p) == TombstoneOne(l, p)
  {
    NothingBelow(l.rep.entries, p);
    assert [p][1..] == [];
    assert TombstoneAll(l, [p]) == TombstoneOne(l, p);
  }

  /** The events take the replica from `r` to `x`. */
  ghost predicate Leads(r: Replica, evs: seq<Event>, x: Replica) {
    (forall ev :: ev in evs ==> EventOk(ev)) && ApplyEvents(Log(r, []), evs, []).rep == x
  }

  lemma OneEvent(l: Log, ev: Event)
    ensures ApplyEvents(l, [ev], []) == ApplyEvent(l, ev, [])
  {
    assert [ev][1..] == [];
  }

  lemma TwoEvents(l: Log, a: Event, b: Event)
    ensures ApplyEvents(l, [a, b], []) == ApplyEvent(ApplyEvent(l, a, []), b, [])
  {
    assert [a, b][1..] == [b];
    OneEvent(ApplyEvent(l, a, []), b);
  }

  lemma LeadsTwo(r: Replica, a: Event, b: Event, x: Replica)
    requires EventOk(a) && EventOk(b) && ApplyEvent(ApplyEvent(Log(r, []), a, []), b, []).rep == x
    ensures Leads(r, [a, b], x)
  {
    TwoEvents(Log(r, []), a, b);
  }

  /** A new directory, with nothing in it yet. */
  lemma MakesDir(l: Log, d: Entry)
    requires d.path !in l.rep.entries && !ShouldIgnore(d.path, [])
    ensures ApplyEvent(l, Folder(d, map[]), []).rep == Writing(l.rep, d)
  {
    ObservesNew(l, d);
    assert Listed(map[]) == [];
  }

  // ---------- whose turn it is ----------

  /** Node `a`, whose tree shows its index, takes `e` from node `b` and becomes `x`. */
  ghost predicate Grabs(a: Node, b: Node, e: Entry, x: Node) {
    && a == Plain(a.rep, a.reports) && x == Plain(Stored(a.rep, e), a.reports)
    && e.path in b.rep.entries && b.rep.entries[e.path] == e
    && ShouldAccept(a.rep, e) && e.kind != Symlink
    && (e.kind == Dir || forall q :: q in a.rep.entries ==> !Below(q, e.path))
  }

  lemma SingleBatch(idx: Index, e: Entry)
    requires e.path in idx && idx[e.path] == e
    ensures IsBatch(idx, [Item(e, true)])
  {
  }

  lemma GrabsOne(a: Node, b: Node, e: Entry, x: Node)
    requires Grabs(a, b, e, x)
    ensures ApplyBatch(Log(a.rep, []), [Item(e, true)]) == BatchResult(Store(Log(a.rep, []), e), None)
    ensures Store(Log(a.rep, []), e).rep == x.rep && IsBatch(b.rep.entries, [Item(e, true)])
  {
    TakesOne(a.rep, e);
    SingleBatch(b.rep.entries, e);
  }

  lemma PullReady(h: Hasher, w: World, cast: map<Text, Node>, i: Text, j: Text, e: Entry, x: Node)
    requires Plays(h, w, cast) && i in cast && j in cast && i != j && Grabs(cast[i], cast[j], e, x)
    ensures Enabled(w, Pull(i, j, [Item(e, true)])) && Updates(w, Pull(i, j, [Item(e, true)]))
    ensures Effect(w, Pull(i, j, [Item(e, true)])).rep == x.rep
  {
    assert w.peers[i].rep == cast[i].rep && w.peers[j].rep == cast[j].rep by {
      assert Is(h, w, i, cast[i]) && Is(h, w, j, cast[j]);
    }
    GrabsOne(cast[i], cast[j], e, x);
  }

  /** A node whose tree shows its index pulls one entry. */
  lemma PullsOne(h: Hasher, play: iset<Text>, ws: seq<World>, acts: seq<Action>, late: nat, cast: map<Text, Node>,
                 i: Text, j: Text, e: Entry, x: Node) returns (v: World)
    requires Story(h, play, ws, acts, late, cast) && i in cast && j in cast && i != j
    requires Grabs(cast[i], cast[j], e, x) && Playable(h, play, x.shown)
    ensures Story(h, play, ws + [v], acts + [Pull(i, j, [Item(e, true)])], late, cast[i := x])
    ensures v.sent == Now(ws).sent
  {
    var a := Pull(i, j, [Item(e, true)]);
    PullReady(h, Now(ws), cast, i, j, e, x);
    PlainTurn(h, play, ws, acts, late, cast, a, x.rep, cast[i].reports);
    v := Tell(h, play, ws, acts, late, cast, a, x);
  }

  /** A node whose tree shows its index changes its folder. */
  lemma Changes(h: Hasher, play: iset<Text>, ws: seq<World>, acts: seq<Action>, late: nat, cast: map<Text, Node>,
                i: Text, evs: seq<Event>, r: Replica) returns (v: World)
    requires Story(h, play, ws, acts, late, cast) && i in cast && cast[i] == Plain(cast[i].rep, cast[i].reports)
    requires Leads(cast[i].rep, evs, r) && Playable(h, play, r.entries)
    ensures Story(h, play, ws + [v], acts + [Local(i, evs, [])], late, cast[i := Plain(r, cast[i].reports)])
    ensures v.sent == Now(ws).sent
  {
    assert Is(h, Now(ws), i, cast[i]);
    PlainTurn(h, play, ws, acts, late, cast, Local(i, evs, []), r, cast[i].reports);
    v := Tell(h, play, ws, acts, late, cast, Local(i, evs, []), Plain(r, cast[i].reports));
  }

  /** A node that hides nothing announces its root. */
  lemma Speaks(h: Hasher, play: iset<Text>, ws: seq<World>, acts: seq<Action>, late: nat, cast: map<Text, Node>,
               k: Text, m: Announcement) returns (v: World)
    requires Story(h, play, ws, acts, late, cast) && k in cast && cast[k].hidden == {}
    requires Playable(h, play, cast[k].shown) && Tells(h, k, cast[k], m)
    ensures Story(h, play, ws + [v], acts + [Announce(k, m)], late, cast)
    ensures v.sent == Now(ws).sent + {m}
  {
    MayAnnounce(h, play, Now(ws), cast, k, m);
    v := Tell(h, play, ws, acts, late, cast, Announce(k, m), cast[k]);
    SameCast(cast, k);
  }

  lemma SameCast(cast: map<Text, Node>, k: Text)
    requires k in cast
    ensures cast[k := cast[k]] == cast
  {
  }

  /** A node that hides nothing hears a root. */
  lemma Hears(h: Hasher, play: iset<Text>, ws: seq<World>, acts: seq<Action>, late: nat, cast: map<Text, Node>,
              k: Text, m: Announcement) returns (v: World)
    requires Story(h, play, ws, acts, late, cast) && k in cast && cast[k].hidden == {}
    requires Playable(h, play, cast[k].shown)
    requires m in Now(ws).sent && m.origin != k && m.watermark == map[]
    ensures Story(h, play, ws + [v], acts + [Deliver(k, m)], late,
                  cast[k := cast[k].(reports := Heard(cast[k].reports, m))])
    ensures v.sent == Now(ws).sent
  {
    MayHear(h, play, Now(ws), cast, k, m);
    v := Tell(h, play, ws, acts, late, cast, Deliver(k, m), cast[k].(reports := Heard(cast[k].reports, m)));
  }

  /** A merge removes something: the tree is derived anew. */
  ghost predicate Forgets(was: Node, n: Node, m: Announcement) {
    && n == Plain(Absorb(was.rep, m.watermark), Heard(was.reports, m)) && n.shown != was.rep.entries
  }

  lemma ForgettingTurn(h: Hasher, play: iset<Text>, w: World, k: Text, m: Announcement, was: Node, n: Node)
    requires Is(h, w, k, was) && Forgets(was, n, m) && m in w.sent && m.origin != k && Playable(h, play, n.shown)
    ensures Turn(h, play, w, Deliver(k, m), n) && Cautious(w, Deliver(k, m))
  {
  }

  lemma CollectStep(h: Hasher, w: World, k: Text, was: Node, r: Replica)
    requires Is(h, w, k, was) && Agreed(w, k) && Collects(was.rep, r)
    ensures Enabled(w, Collect(k)) && RepStep(w, Collect(k), r)
  {
  }

  /** A collection removes something: the tree is derived anew. */
  lemma CollectingTurn(h: Hasher, play: iset<Text>, w: World, k: Text, was: Node, n: Node)
    requires Is(h, w, k, was) && Enabled(w, Collect(k)) && RepStep(w, Collect(k), n.rep) && Playable(h, play, n.shown)
    requires n == Plain(n.rep, was.reports) && n.shown != was.rep.entries
    ensures Turn(h, play, w, Collect(k), n)
  {
    Rederived(w, k, n.rep.entries);
  }

  lemma Rederived(w: World, k: Text, after: Index)
    requires k in w.peers && k in w.shown && k in w.hidden && after != w.peers[k].rep.entries
    ensures ShownAfter(w, Collect(k), after) == after && HiddenAfter(w, Collect(k), after) == {}
  {
  }

  /** The action is enabled, updates the tree for the paths `ps`, and leads to `r`. */
  ghost predicate UpdatesTo(w: World, a: Action, r: Replica, ps: seq<Text>) {
    && Enabled(w, a) && Updates(w, a)
    && Effect(w, a).rep == r && PathsOf(Effect(w, a).changes) == ps
  }

  /** Events that touch just the paths `ps`. */
  ghost predicate Touches(r: Replica, evs: seq<Event>, x: Replica, ps: seq<Text>) {
    && (forall ev :: ev in evs ==> EventOk(ev))
    && ApplyEvents(Log(r, []), evs, []).rep == x && PathsOf(ApplyEvents(Log(r, []), evs, []).changes) == ps
  }

  lemma TouchesSo(h: Hasher, w: World, k: Text, was: Node, evs: seq<Event>, x: Replica, ps: seq<Text>)
    requires Is(h, w, k, was) && Touches(was.rep, evs, x, ps)
    ensures UpdatesTo(w, Local(k, evs, []), x, ps)
  {
  }

  /** A batch from `idx` that brings the paths `ps`. */
  ghost predicate Brings(r: Replica, idx: Index, batch: seq<Fetched>, x: Replica, ps: seq<Text>) {
    && IsBatch(idx, batch) && ApplyBatch(Log(r, []), batch).failed.None?
    && ApplyBatch(Log(r, []), batch).log.rep == x && PathsOf(ApplyBatch(Log(r, []), batch).log.changes) == ps
  }

  lemma BringsSo(h: Hasher, w: World, i: Text, j: Text, a: Node, b: Node, batch: seq<Fetched>, x: Replica,
                 ps: seq<Text>)
    requires i != j && Is(h, w, i, a) && Is(h, w, j, b) && Brings(a.rep, b.rep.entries, batch, x, ps)
    ensures UpdatesTo(w, Pull(i, j, batch), x, ps)
  {
  }

  /** The node `n` has the tree of `was`, updated for the paths `ps`. */
  ghost predicate Updated(h: Hasher, was: Node, n: Node, ps: seq<Text>) {
    && IndexOk(was.shown) && n.shown == Mixed(Snapshot(h, was.shown).nodes.Keys, was.shown, n.rep.entries, ps)
    && n.reports == was.reports && (n.hidden == set e | e in was.hidden && !Shows(n.shown, e))
  }

  /** The action updates the tree of `was`, which is left behind, and makes `n` of the node. */
  ghost predicate Patch(h: Hasher, play: iset<Text>, w: World, a: Action, was: Node, n: Node, ps: seq<Text>) {
    UpdatesTo(w, a, n.rep, ps) && Playable(h, play, n.shown) && Updated(h, was, n, ps)
  }

  lemma UpdatingTurn(h: Hasher, play: iset<Text>, w: World, a: Action, was: Node, n: Node, ps: seq<Text>)
    requires Is(h, w, a.node, was) && Patch(h, play, w, a, was, n, ps)
    ensures Turn(h, play, w, a, n)
  {
  }

  /** With one changed path, which has an entry, the nodes on the way to it are dirty. */
  lemma OneDirty(keys: set<Text>, idx: Index, p: Text, k: Text)
    requires p in idx
    ensures Dirty(keys, idx, [p], k) <==> OnPathOf(k, p)
  {
    if OnPathOf(k, p) { assert p in [p]; }
  }

  /** A node whose tree is left behind goes on updating it. */
  lemma Patches(h: Hasher, play: iset<Text>, ws: seq<World>, acts: seq<Action>, late: nat, cast: map<Text, Node>,
                a: Action, was: Node, n: Node, ps: seq<Text>) returns (v: World)
    requires Story(h, play, ws, acts, late, cast) && a.node in cast && cast[a.node] == was
    requires Patch(h, play, Now(ws), a, was, n, ps)
    ensures Story(h, play, ws + [v], acts + [a], late, cast[a.node := n])
  {
    Acting(h, Now(ws), cast, a.node);
    UpdatingTurn(h, play, Now(ws), a, was, n, ps);
    v := Tell(h, play, ws, acts, late, cast, a, n);
  }

  /** A batch fails: the tree stays, and what was buried is hidden. */
  ghost predicate Stumble(h: Hasher, play: iset<Text>, w: World, a: Action, was: Node, n: Node) {
    && Enabled(w, a) && Fails(w, a) && Playable(h, play, was.shown)
    && n == Node(Effect(w, a).rep, was.shown, was.reports, was.hidden + Burials(w, a))
  }

  lemma FailingTurn(h: Hasher, play: iset<Text>, w: World, a: Action, was: Node, n: Node)
    requires Is(h, w, a.node, was) && Stumble(h, play, w, a, was, n)
    ensures Turn(h, play, w, a, n)
  {
  }

  lemma Stumbles(h: Hasher, play: iset<Text>, ws: seq<World>, acts: seq<Action>, late: nat, cast: map<Text, Node>,
                 a: Action, was: Node, n: Node) returns (v: World)
    requires Story(h, play, ws, acts, late, cast) && a.node in cast && cast[a.node] == was
    requires Stumble(h, play, Now(ws), a, was, n)
    ensures Story(h, play, ws + [v], acts + [a], late, cast[a.node := n])
  {
    Acting(h, Now(ws), cast, a.node);
    FailingTurn(h, play, Now(ws), a, was, n);
    v := Tell(h, play, ws, acts, late, cast, a, n);
  }

  // ---------- such scenes exist ----------

  ghost function Sample(path: Text, kind: EntryKind): Entry {
    Entry(path, kind, None, None, 0, None, Version(0, []))
  }

  /** Every string is in play. */
  ghost function AllText(): iset<Text> {
    iset t: Text | |t| >= 0
  }

  lemma {:induction false} AncestorsShorter(p: Text, a: Text)
    requires a in Ancestors(p)
    ensures |a| <= |p|
    decreases |p|
  {
    if Parent(p) != [] && a != Parent(p) { AncestorsShorter(Parent(p), a); }
  }

  lemma PlayableInAll(h: Hasher, idx: Index)
    requires IndexOk(idx) && forall p :: p in idx ==> Sized(idx[p]) && |p| + 2 < U64
    ensures Playable(h, AllText(), idx)
  {
    var s := Snapshot(h, idx);
    forall k | k in s.nodes ensures |k| + 2 < U64 {
      if k != [] {
        var p :| p in idx && k in PathToRoot(p);
        if k != p { AncestorsShorter(p, k); }
      }
    }
  }

  lemma LetterOrdinary(b: byte)
    requires 97 <= b as int <= 122
    ensures Ordinary([b])
  {
    assert Ascii(".") == [DOT] && Ascii("..") == [DOT, DOT];
    if SystemName([b]) { SystemLong([b]); }
  }

  lemma ValidTop(name: Text)
    requires Ordinary(name)
    ensures ValidRemotePath(name)
  {
    assert MadeOf(name, [name]);
    RemotePathExactly(name);
  }

  lemma ValidBelow(k: Text, name: Text)
    requires ValidRemotePath(k) && Ordinary(name)
    ensures ValidRemotePath(k + [SLASH] + name)
  {
    SplitSnoc(k, name);
    IgnoredSystem(name);
    assert Ascii(".") == [DOT] && Ascii("..") == [DOT, DOT];
  }

  /** A path one letter below a valid path, or below the root. */
  lemma LetterBelow(k: Text, b: byte)
    requires k == [] || ValidRemotePath(k)
    requires 97 <= b as int <= 122
    ensures ValidRemotePath(Join(k, [b])) && Parent(Join(k, [b])) == k
  {
    LetterOrdinary(b);
    if k == [] {
      ValidTop([b]);
    } else {
      ValidIsClean(k);
      ValidBelow(k, [b]);
    }
    SplitJoin(k, [b]);
  }
}
