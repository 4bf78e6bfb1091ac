/** Why a collection needs a tree that shows every tombstone: a run in which a node takes over
    a deletion in a batch that fails, collects, and takes the deleted file back. The pull that
    fails is the one the last recorded announcement of the peer asked for; the peer has moved
    on in the meantime. */
module NetworkFailures {
  import opened Wrappers
  import opened Bytes
  import opened Paths
  import opened Entries
  import opened Tree
  import opened Ignore
  import opened Replicas
  import opened ReplicaFacts
  import opened Daemons
  import opened Network
  import opened NetworkTraces
  import opened NetworkScenes

  /** Three nodes, a directory, a file in it, and another directory beside that file. */
  datatype Scene = Scene(i: Text, j: Text, m: Text, dir: Entry, file: Entry, other: Entry) {
    // what is written in the course of the run
    ghost function D(): Entry { dir.(version := Version(1, m)) }

    ghost function F(): Entry { file.(version := Version(2, m)) }

    ghost function Grave(): Entry { TombstoneOf(file.path, F(), Version(3, j)) }

    ghost function O(): Entry { other.(version := Version(4, j)) }

    // the indices
    ghost function Bare(): Index { map[dir.path := D()] }

    ghost function Full(): Index { map[dir.path := D(), file.path := F()] }

    ghost function Dead(): Index { map[dir.path := D(), file.path := Grave()] }

    ghost function Ahead(): Index { map[dir.path := D(), file.path := Grave(), other.path := O()] }

    predicate Distinct() { i != j && i != m && j != m }

    ghost predicate PathsOk() {
      && ValidRemotePath(dir.path) && ValidRemotePath(file.path) && ValidRemotePath(other.path)
      && Parent(file.path) == Parent(other.path) && Le(file.path, other.path)
      && dir.path != file.path && dir.path != other.path && file.path != other.path
      && !Below(dir.path, file.path) && !Below(other.path, file.path) && !Below(file.path, file.path)
    }

    ghost predicate Ok(h: Hasher, play: iset<Text>) {
      && Distinct() && dir.kind == Dir && file.kind == File && other.kind == Dir && PathsOk()
      && Playable(h, play, map[]) && Playable(h, play, Bare()) && Playable(h, play, Full())
      && Playable(h, play, Ahead())
    }
  }

  /** A node that has the directory. */
  ghost function HasBare(c: Scene, k: Text): Node { Plain(Replica(k, 1, map[], c.Bare()), map[]) }

  ghost function HasFull(c: Scene, k: Text): Node { Plain(Replica(k, 2, map[], c.Full()), map[]) }

  ghost function IsAhead(c: Scene): Node { Plain(Replica(c.j, 4, map[], c.Ahead()), map[]) }

  ghost function Cast(c: Scene, a: Node, b: Node, d: Node): map<Text, Node> {
    map[c.i := a, c.j := b, c.m := d]
  }

  lemma RecastI(c: Scene, a: Node, b: Node, d: Node, x: Node)
    requires c.Distinct()
    ensures Cast(c, a, b, d)[c.i := x] == Cast(c, x, b, d)
  {
  }

  lemma RecastJ(c: Scene, a: Node, b: Node, d: Node, x: Node)
    requires c.Distinct()
    ensures Cast(c, a, b, d)[c.j := x] == Cast(c, a, x, d)
  {
  }

  lemma RecastM(c: Scene, a: Node, b: Node, d: Node, x: Node)
    requires c.Distinct()
    ensures Cast(c, a, b, d)[c.m := x] == Cast(c, a, b, x)
  {
  }

  lemma Roles(c: Scene, a: Node, b: Node, d: Node)
    requires c.Distinct()
    ensures Cast(c, a, b, d).Keys == {c.i, c.j, c.m}
    ensures Cast(c, a, b, d)[c.i] == a && Cast(c, a, b, d)[c.j] == b && Cast(c, a, b, d)[c.m] == d
  {
  }

  lemma Casting(h: Hasher, c: Scene, w: World, a: Node, b: Node, d: Node)
    requires c.Distinct() && Plays(h, w, Cast(c, a, b, d))
    ensures w.peers.Keys == {c.i, c.j, c.m} && Is(h, w, c.i, a) && Is(h, w, c.j, b) && Is(h, w, c.m, d)
  {
    Roles(c, a, b, d);
    Acting(h, w, Cast(c, a, b, d), c.i);
    Acting(h, w, Cast(c, a, b, d), c.j);
    Acting(h, w, Cast(c, a, b, d), c.m);
  }

  lemma NotIgnored(p: Text)
    requires ValidRemotePath(p)
    ensures !ShouldIgnore(p, []) && Clean(p)
  {
    ValidIsClean(p);
  }

  /** What `i` hears: both others have the directory and nothing else. */
  ghost function Rumours(h: Hasher, c: Scene): Reports
    requires IndexOk(c.Bare())
  {
    Heard(Heard(map[], Word(h, c.j, HasBare(c, c.j))), Word(h, c.m, HasBare(c, c.m)))
  }

  ghost function HalfTold(h: Hasher, c: Scene): Node
    requires IndexOk(c.Bare())
  {
    New(c.i).(reports := Heard(map[], Word(h, c.j, HasBare(c, c.j))))
  }

  ghost function Told(h: Hasher, c: Scene): Node
    requires IndexOk(c.Bare())
  {
    New(c.i).(reports := Rumours(h, c))
  }

  /** `i` with the directory, its tree showing what the others have reported, */
  ghost function InStep(h: Hasher, c: Scene): Node
    requires IndexOk(c.Bare())
  {
    Plain(Replica(c.i, 1, map[], c.Bare()), Rumours(h, c))
  }

  /** with the deletion from a batch that failed, its tree showing the same, */
  ghost function Misled(h: Hasher, c: Scene): Node
    requires IndexOk(c.Bare())
  {
    Node(Replica(c.i, 3, map[], c.Dead()), c.Bare(), Rumours(h, c), {})
  }

  /** and after it has collected. */
  ghost function Forgetful(h: Hasher, c: Scene): Node
    requires IndexOk(c.Bare())
  {
    Plain(Replica(c.i, 4, map[c.j := 3], c.Bare()), Rumours(h, c))
  }

  ghost function Reborn(h: Hasher, c: Scene): Node
    requires IndexOk(c.Bare())
  {
    Plain(Replica(c.i, 4, map[c.j := 3], c.Full()), Rumours(h, c))
  }

  // ---------- what the steps do to the replicas ----------

  lemma DirMade(c: Scene)
    requires ValidRemotePath(c.dir.path)
    ensures Leads(New(c.m).rep, [Folder(c.dir, map[])], HasBare(c, c.m).rep)
  {
    var l := Log(New(c.m).rep, []);
    NotIgnored(c.dir.path);
    OneEvent(l, Folder(c.dir, map[]));
    MakesDir(l, c.dir);
    assert Writing(l.rep, c.dir).entries == c.Bare();
  }

  lemma DirTaken(c: Scene)
    requires ValidRemotePath(c.dir.path) && c.dir.kind == Dir
    ensures Grabs(New(c.j), HasBare(c, c.m), c.D(), HasBare(c, c.j))
  {
    assert Stored(New(c.j).rep, c.D()).entries == c.Bare();
  }

  lemma FileMade(c: Scene)
    requires c.PathsOk()
    ensures Leads(HasBare(c, c.m).rep, [Leaf(c.file)], HasFull(c, c.m).rep)
  {
    var l := Log(HasBare(c, c.m).rep, []);
    NotIgnored(c.file.path);
    OneEvent(l, Leaf(c.file));
    ObservesNew(l, c.file);
    assert Writing(l.rep, c.file).entries == c.Full();
  }

  lemma FileTaken(c: Scene)
    requires c.PathsOk() && c.file.kind == File
    ensures Grabs(HasBare(c, c.j), HasFull(c, c.m), c.F(), HasFull(c, c.j))
  {
    assert Stored(HasBare(c, c.j).rep, c.F()).entries == c.Full();
  }

  lemma FileGone(c: Scene)
    requires c.PathsOk() && c.file.kind == File
    ensures Leads(HasFull(c, c.j).rep, [Gone(c.file.path), Folder(c.other, map[])], IsAhead(c).rep)
  {
    var l := Log(HasFull(c, c.j).rep, []);
    NotIgnored(c.file.path);
    NotIgnored(c.other.path);
    var m := ApplyEvent(l, Gone(c.file.path), []);
    FileRemoved(c, l);
    OtherMade(c, m);
    LeadsTwo(l.rep, Gone(c.file.path), Folder(c.other, map[]), IsAhead(c).rep);
  }

  lemma OtherMade(c: Scene, m: Log)
    requires c.PathsOk() && !ShouldIgnore(c.other.path, []) && m.rep == Replica(c.j, 3, map[], c.Dead())
    ensures ApplyEvent(m, Folder(c.other, map[]), []).rep == IsAhead(c).rep
  {
    MakesDir(m, c.other);
    assert Writing(m.rep, c.other).entries == c.Ahead();
  }

  lemma FileRemoved(c: Scene, l: Log)
    requires c.PathsOk() && c.file.kind == File && l.rep == HasFull(c, c.j).rep
    ensures Remove(l, c.file.path).rep == Replica(c.j, 3, map[], c.Dead())
  {
    RemovesOne(l, c.file.path);
    assert Burying(l.rep, c.file.path).entries == c.Dead();
  }

  lemma CatchesUp(h: Hasher, c: Scene)
    requires c.PathsOk() && c.dir.kind == Dir && IndexOk(c.Bare())
    ensures Grabs(Told(h, c), IsAhead(c), c.D(), InStep(h, c))
  {
    assert Stored(Told(h, c).rep, c.D()).entries == c.Bare();
  }

  lemma HalfTaken(h: Hasher, c: Scene)
    requires c.PathsOk() && c.other.kind == Dir && IndexOk(c.Bare())
    ensures ApplyBatch(Log(InStep(h, c).rep, []), [Item(c.Grave(), true), Item(c.O(), false)]) ==
      BatchResult(Store(Log(InStep(h, c).rep, []), c.Grave()), Some(Storage))
    ensures Store(Log(InStep(h, c).rep, []), c.Grave()).rep == Misled(h, c).rep
  {
    var r := InStep(h, c).rep;
    assert Stored(r, c.Grave()).entries == c.Dead();
    TakesOneOfTwo(r, c.Grave(), c.O());
  }

  lemma Collected(h: Hasher, c: Scene)
    requires c.PathsOk() && c.dir.kind == Dir && c.i != c.j && IndexOk(c.Bare())
    ensures Collects(Misled(h, c).rep, Forgetful(h, c).rep)
  {
    var idx: Index := c.Dead();
    var marks: Watermark := map[c.j := 3];
    assert TopTombstone(idx, c.file.path, c.j, 3);
    assert IsMarks(marks, idx);
    assert JoinMarks(map[], marks) == marks;
    assert c.j in marks && Mark(map[], c.j) < marks[c.j];
    assert Prune(idx, marks) == c.Bare();
    assert c.file.path in idx && c.file.path !in c.Bare();
  }

  lemma FileBack(h: Hasher, c: Scene)
    requires c.PathsOk() && c.file.kind == File && IndexOk(c.Bare())
    ensures Grabs(Forgetful(h, c), HasFull(c, c.m), c.F(), Reborn(h, c))
  {
    assert Stored(Forgetful(h, c).rep, c.F()).entries == c.Full();
  }

  // ---------- one step of the story ----------

  lemma MChanges(h: Hasher, play: iset<Text>, c: Scene, ws: seq<World>, acts: seq<Action>, late: nat,
                 a: Node, b: Node, d: Node, evs: seq<Event>, x: Node) returns (v: World)
    requires c.Distinct() && Story(h, play, ws, acts, late, Cast(c, a, b, d))
    requires d == Plain(d.rep, d.reports) && x == Plain(x.rep, d.reports) && Playable(h, play, x.shown)
    requires Leads(d.rep, evs, x.rep)
    ensures Story(h, play, ws + [v], acts + [Local(c.m, evs, [])], late, Cast(c, a, b, x))
    ensures v.sent == Now(ws).sent
  {
    RecastM(c, a, b, d, x);
    v := Changes(h, play, ws, acts, late, Cast(c, a, b, d), c.m, evs, x.rep);
  }

  lemma JChanges(h: Hasher, play: iset<Text>, c: Scene, ws: seq<World>, acts: seq<Action>, late: nat,
                 a: Node, b: Node, d: Node, evs: seq<Event>, x: Node) returns (v: World)
    requires c.Distinct() && Story(h, play, ws, acts, late, Cast(c, a, b, d))
    requires b == Plain(b.rep, b.reports) && x == Plain(x.rep, b.reports) && Playable(h, play, x.shown)
    requires Leads(b.rep, evs, x.rep)
    ensures Story(h, play, ws + [v], acts + [Local(c.j, evs, [])], late, Cast(c, a, x, d))
    ensures v.sent == Now(ws).sent
  {
    Roles(c, a, b, d);
    RecastJ(c, a, b, d, x);
    v := Changes(h, play, ws, acts, late, Cast(c, a, b, d), c.j, evs, x.rep);
  }

  lemma JPulls(h: Hasher, play: iset<Text>, c: Scene, ws: seq<World>, acts: seq<Action>, late: nat,
               a: Node, b: Node, d: Node, e: Entry, x: Node) returns (v: World)
    requires c.Distinct() && Story(h, play, ws, acts, late, Cast(c, a, b, d))
    requires Grabs(b, d, e, x) && Playable(h, play, x.shown)
    ensures Story(h, play, ws + [v], acts + [Pull(c.j, c.m, [Item(e, true)])], late, Cast(c, a, x, d))
    ensures v.sent == Now(ws).sent
  {
    Roles(c, a, b, d);
    RecastJ(c, a, b, d, x);
    v := PullsOne(h, play, ws, acts, late, Cast(c, a, b, d), c.j, c.m, e, x);
  }

  lemma IPulls(h: Hasher, play: iset<Text>, c: Scene, ws: seq<World>, acts: seq<Action>, late: nat,
               a: Node, b: Node, d: Node, e: Entry, x: Node) returns (v: World)
    requires c.Distinct() && Story(h, play, ws, acts, late, Cast(c, a, b, d))
    requires Grabs(a, b, e, x) && Playable(h, play, x.shown)
    ensures Story(h, play, ws + [v], acts + [Pull(c.i, c.j, [Item(e, true)])], late, Cast(c, x, b, d))
  {
    Roles(c, a, b, d);
    RecastI(c, a, b, d, x);
    v := PullsOne(h, play, ws, acts, late, Cast(c, a, b, d), c.i, c.j, e, x);
  }

  lemma IPullsBack(h: Hasher, play: iset<Text>, c: Scene, ws: seq<World>, acts: seq<Action>, late: nat,
                   a: Node, b: Node, d: Node, e: Entry, x: Node) returns (v: World)
    requires c.Distinct() && Story(h, play, ws, acts, late, Cast(c, a, b, d))
    requires Grabs(a, d, e, x) && Playable(h, play, x.shown)
    ensures Story(h, play, ws + [v], acts + [Pull(c.i, c.m, [Item(e, true)])], late, Cast(c, x, b, d))
  {
    Roles(c, a, b, d);
    RecastI(c, a, b, d, x);
    v := PullsOne(h, play, ws, acts, late, Cast(c, a, b, d), c.i, c.m, e, x);
  }

  lemma JSpeaks(h: Hasher, play: iset<Text>, c: Scene, ws: seq<World>, acts: seq<Action>, late: nat,
                a: Node, b: Node, d: Node) returns (v: World)
    requires c.Distinct() && Story(h, play, ws, acts, late, Cast(c, a, b, d))
    requires b.hidden == {} && Playable(h, play, b.shown)
    ensures Story(h, play, ws + [v], acts + [Announce(c.j, Word(h, c.j, b))], late, Cast(c, a, b, d))
    ensures v.sent == Now(ws).sent + {Word(h, c.j, b)}
  {
    Roles(c, a, b, d);
    v := Speaks(h, play, ws, acts, late, Cast(c, a, b, d), c.j, Word(h, c.j, b));
  }

  lemma MSpeaks(h: Hasher, play: iset<Text>, c: Scene, ws: seq<World>, acts: seq<Action>, late: nat,
                a: Node, b: Node, d: Node) returns (v: World)
    requires c.Distinct() && Story(h, play, ws, acts, late, Cast(c, a, b, d))
    requires d.hidden == {} && Playable(h, play, d.shown)
    ensures Story(h, play, ws + [v], acts + [Announce(c.m, Word(h, c.m, d))], late, Cast(c, a, b, d))
    ensures v.sent == Now(ws).sent + {Word(h, c.m, d)}
  {
    Roles(c, a, b, d);
    v := Speaks(h, play, ws, acts, late, Cast(c, a, b, d), c.m, Word(h, c.m, d));
  }

  lemma IHears(h: Hasher, play: iset<Text>, c: Scene, ws: seq<World>, acts: seq<Action>, late: nat,
               a: Node, b: Node, d: Node, m: Announcement) returns (v: World)
    requires c.Distinct() && Story(h, play, ws, acts, late, Cast(c, a, b, d))
    requires a.hidden == {} && Playable(h, play, a.shown)
    requires m in Now(ws).sent && m.origin != c.i && m.watermark == map[]
    ensures Story(h, play, ws + [v], acts + [Deliver(c.i, m)], late,
                  Cast(c, a.(reports := Heard(a.reports, m)), b, d))
    ensures v.sent == Now(ws).sent
  {
    Roles(c, a, b, d);
    RecastI(c, a, b, d, a.(reports := Heard(a.reports, m)));
    v := Hears(h, play, ws, acts, late, Cast(c, a, b, d), c.i, m);
  }

  // ---------- the step that fails, and the collection ----------

  ghost function HalfPull(c: Scene): Action {
    Pull(c.i, c.j, [Item(c.Grave(), true), Item(c.O(), false)])
  }

  lemma TwoItems(c: Scene)
    requires c.PathsOk() && c.other.kind == Dir
    ensures IsBatch(c.Ahead(), [Item(c.Grave(), true), Item(c.O(), false)])
  {
  }

  lemma HalfEffect(h: Hasher, c: Scene, w: World)
    requires c.Distinct() && c.PathsOk() && c.other.kind == Dir && IndexOk(c.Bare())
    requires Is(h, w, c.i, InStep(h, c)) && Is(h, w, c.j, IsAhead(c))
    ensures Enabled(w, HalfPull(c)) && Fails(w, HalfPull(c)) && Effect(w, HalfPull(c)).rep == Misled(h, c).rep
    ensures Effect(w, HalfPull(c)) == Store(Log(InStep(h, c).rep, []), c.Grave())
  {
    TwoItems(c);
    HalfTaken(h, c);
  }

  lemma HalfHides(c: Scene, r: Replica)
    requires c.i != c.j
    ensures WrittenBy(c.i, r.lamport, NextEntries(Store(Log(r, []), c.Grave()).changes)) == {}
  {
    assert Store(Log(r, []), c.Grave()).changes == [Change(c.file.path, Lookup(r.entries, c.file.path), c.Grave())];
  }

  lemma HalfTurn(h: Hasher, play: iset<Text>, c: Scene, w: World)
    requires c.Distinct() && c.PathsOk() && c.other.kind == Dir && Playable(h, play, c.Bare())
    requires Is(h, w, c.i, InStep(h, c)) && Is(h, w, c.j, IsAhead(c))
    ensures Enabled(w, HalfPull(c)) && Fails(w, HalfPull(c)) && Turn(h, play, w, HalfPull(c), Misled(h, c))
  {
    HalfEffect(h, c, w);
    HalfHides(c, InStep(h, c).rep);
    assert Burials(w, HalfPull(c)) == {};
    FailingTurn(h, play, w, HalfPull(c), InStep(h, c), Misled(h, c));
  }

  lemma IFails(h: Hasher, play: iset<Text>, c: Scene, ws: seq<World>, acts: seq<Action>, late: nat, d: Node)
    returns (v: World)
    requires c.Distinct() && c.PathsOk() && c.other.kind == Dir && Playable(h, play, c.Bare())
    requires Story(h, play, ws, acts, late, Cast(c, InStep(h, c), IsAhead(c), d))
    ensures Story(h, play, ws + [v], acts + [HalfPull(c)], late, Cast(c, Misled(h, c), IsAhead(c), d))
    ensures c.i in Now(ws).peers && Fails(Now(ws), HalfPull(c))
  {
    Casting(h, c, Now(ws), InStep(h, c), IsAhead(c), d);
    HalfTurn(h, play, c, Now(ws));
    RecastI(c, InStep(h, c), IsAhead(c), d, Misled(h, c));
    v := Tell(h, play, ws, acts, late, Cast(c, InStep(h, c), IsAhead(c), d), HalfPull(c), Misled(h, c));
  }

  lemma AllMatching(h: Hasher, c: Scene, w: World)
    requires c.Distinct() && IndexOk(c.Bare())
    requires w.peers.Keys == {c.i, c.j, c.m} && Is(h, w, c.i, Misled(h, c))
    ensures Agreed(w, c.i)
  {
    assert w.peers.Keys - {c.i} == {c.j, c.m};
  }

  lemma CollectTurn(h: Hasher, play: iset<Text>, c: Scene, w: World)
    requires c.Distinct() && c.PathsOk() && c.dir.kind == Dir && Playable(h, play, c.Bare())
    requires w.peers.Keys == {c.i, c.j, c.m} && Is(h, w, c.i, Misled(h, c))
    ensures Turn(h, play, w, Collect(c.i), Forgetful(h, c))
  {
    AllMatching(h, c, w);
    Collected(h, c);
    DeadDiffers(c);
    CollectStep(h, w, c.i, Misled(h, c), Forgetful(h, c).rep);
    CollectingTurn(h, play, w, c.i, Misled(h, c), Forgetful(h, c));
  }

  lemma DeadDiffers(c: Scene)
    requires c.dir.path != c.file.path
    ensures c.Dead() != c.Bare()
  {
    assert c.file.path in c.Dead() && c.file.path !in c.Bare();
  }

  lemma ICollects(h: Hasher, play: iset<Text>, c: Scene, ws: seq<World>, acts: seq<Action>, b: Node, d: Node)
    returns (v: World)
    requires c.Distinct() && c.PathsOk() && c.dir.kind == Dir && Playable(h, play, c.Bare())
    requires Story(h, play, ws, acts, |acts|, Cast(c, Misled(h, c), b, d))
    ensures Story(h, play, ws + [v], acts + [Collect(c.i)], |acts|, Cast(c, Forgetful(h, c), b, d))
  {
    Casting(h, c, Now(ws), Misled(h, c), b, d);
    CollectTurn(h, play, c, Now(ws));
    RecastI(c, Misled(h, c), b, d, Forgetful(h, c));
    v := Tell(h, play, ws, acts, |acts|, Cast(c, Misled(h, c), b, d), Collect(c.i), Forgetful(h, c));
  }

  // ---------- the story ----------

  /** `m` makes the directory, `j` takes it over, and both report it; `i` hears of that. */
  lemma Opening(h: Hasher, play: iset<Text>, c: Scene, late: nat) returns (ws: seq<World>, acts: seq<Action>)
    requires c.Ok(h, play) && 2 <= late
    ensures |acts| == 2 && Story(h, play, ws, acts, late, Cast(c, New(c.i), HasBare(c, c.j), HasBare(c, c.m)))
  {
    Begin(h, play, {c.i, c.j, c.m}, late);
    Curtain(c);
    ws, acts := [Beginning(h, {c.i, c.j, c.m})], [];
    DirMade(c);
    var v := MChanges(h, play, c, ws, acts, late, New(c.i), New(c.j), New(c.m), [Folder(c.dir, map[])],
                      HasBare(c, c.m));
    ws, acts := ws + [v], acts + [Local(c.m, [Folder(c.dir, map[])], [])];
    DirTaken(c);
    v := JPulls(h, play, c, ws, acts, late, New(c.i), New(c.j), HasBare(c, c.m), c.D(), HasBare(c, c.j));
    ws, acts := ws + [v], acts + [Pull(c.j, c.m, [Item(c.D(), true)])];
  }

  lemma Curtain(c: Scene)
    requires c.Distinct()
    ensures Cast(c, New(c.i), New(c.j), New(c.m)) == map k | k in {c.i, c.j, c.m} :: New(k)
  {
  }

  lemma Spoken(h: Hasher, play: iset<Text>, c: Scene, late: nat) returns (ws: seq<World>, acts: seq<Action>)
    requires c.Ok(h, play) && 4 <= late
    ensures |acts| == 4 && Story(h, play, ws, acts, late, Cast(c, New(c.i), HasBare(c, c.j), HasBare(c, c.m)))
    ensures Word(h, c.j, HasBare(c, c.j)) in Now(ws).sent && Word(h, c.m, HasBare(c, c.m)) in Now(ws).sent
  {
    var b, d := HasBare(c, c.j), HasBare(c, c.m);
    ws, acts := Opening(h, play, c, late);
    var v := JSpeaks(h, play, c, ws, acts, late, New(c.i), b, d);
    ws, acts := ws + [v], acts + [Announce(c.j, Word(h, c.j, b))];
    v := MSpeaks(h, play, c, ws, acts, late, New(c.i), b, d);
    ws, acts := ws + [v], acts + [Announce(c.m, Word(h, c.m, d))];
  }

  lemma Reported(h: Hasher, play: iset<Text>, c: Scene, late: nat) returns (ws: seq<World>, acts: seq<Action>)
    requires c.Ok(h, play) && 6 <= late
    ensures |acts| == 6 && Story(h, play, ws, acts, late, Cast(c, Told(h, c), HasBare(c, c.j), HasBare(c, c.m)))
  {
    var b, d := HasBare(c, c.j), HasBare(c, c.m);
    ws, acts := Spoken(h, play, c, late);
    var v := IHears(h, play, c, ws, acts, late, New(c.i), b, d, Word(h, c.j, b));
    ws, acts := ws + [v], acts + [Deliver(c.i, Word(h, c.j, b))];
    v := IHears(h, play, c, ws, acts, late, HalfTold(h, c), b, d, Word(h, c.m, d));
    ws, acts := ws + [v], acts + [Deliver(c.i, Word(h, c.m, d))];
  }

  /** `m` writes a file, `j` takes it over, */
  lemma Shared(h: Hasher, play: iset<Text>, c: Scene, late: nat) returns (ws: seq<World>, acts: seq<Action>)
    requires c.Ok(h, play) && 8 <= late
    ensures |acts| == 8 && Story(h, play, ws, acts, late, Cast(c, Told(h, c), HasFull(c, c.j), HasFull(c, c.m)))
  {
    ws, acts := Reported(h, play, c, late);
    FileMade(c);
    var v := MChanges(h, play, c, ws, acts, late, Told(h, c), HasBare(c, c.j), HasBare(c, c.m),
                      [Leaf(c.file)], HasFull(c, c.m));
    ws, acts := ws + [v], acts + [Local(c.m, [Leaf(c.file)], [])];
    FileTaken(c);
    v := JPulls(h, play, c, ws, acts, late, Told(h, c), HasBare(c, c.j), HasFull(c, c.m), c.F(), HasFull(c, c.j));
    ws, acts := ws + [v], acts + [Pull(c.j, c.m, [Item(c.F(), true)])];
  }

  /** ... deletes it and makes another directory. */
  lemma Edited(h: Hasher, play: iset<Text>, c: Scene, late: nat) returns (ws: seq<World>, acts: seq<Action>)
    requires c.Ok(h, play) && 9 <= late
    ensures |acts| == 9 && Story(h, play, ws, acts, late, Cast(c, Told(h, c), IsAhead(c), HasFull(c, c.m)))
  {
    ws, acts := Shared(h, play, c, late);
    FileGone(c);
    var v := JChanges(h, play, c, ws, acts, late, Told(h, c), HasFull(c, c.j), HasFull(c, c.m),
                  [Gone(c.file.path), Folder(c.other, map[])], IsAhead(c));
    ws, acts := ws + [v], acts + [Local(c.j, [Gone(c.file.path), Folder(c.other, map[])], [])];
  }

  /** A deletion, its disappearance, and then something older and live in its place. */
  ghost predicate Returns(u: World, v: World, x: World, k: Text, p: Text) {
    && Holds(u, k, p) && !Holds(v, k, p) && Holds(x, k, p)
    && EntryAt(u, k, p).kind == Tombstone && Live(EntryAt(x, k, p))
    && EntryAt(x, k, p).version.Less(EntryAt(u, k, p).version)
  }

  lemma ComesBack(h: Hasher, c: Scene, u: World, v: World, x: World)
    requires c.Distinct() && c.dir.path != c.file.path && c.file.kind == File && IndexOk(c.Bare())
    requires Is(h, u, c.i, Misled(h, c)) && Is(h, v, c.i, Forgetful(h, c)) && Is(h, x, c.i, Reborn(h, c))
    ensures Returns(u, v, x, c.i, c.file.path)
  {
  }

  /** The last four steps: `i` catches up with what was reported, gets the deletion in a batch
      that fails, collects, and takes the file from `m`. */
  lemma Misfortune(h: Hasher, play: iset<Text>, c: Scene, ws: seq<World>, acts: seq<Action>)
    returns (t: World, u: World, v: World, x: World)
    requires c.Ok(h, play) && |acts| == 9
    requires Story(h, play, ws, acts, 11, Cast(c, Told(h, c), IsAhead(c), HasFull(c, c.m)))
    ensures CarefulBut(h, play, ws + [t] + [u] + [v] + [x],
      acts + [Pull(c.i, c.j, [Item(c.D(), true)])] + [HalfPull(c)] + [Collect(c.i)]
        + [Pull(c.i, c.m, [Item(c.F(), true)])],
      11)
    ensures c.i in t.peers && Fails(t, HalfPull(c)) && Returns(u, v, x, c.i, c.file.path)
  {
    var b, d := IsAhead(c), HasFull(c, c.m);
    var a1, a2, a3 := Pull(c.i, c.j, [Item(c.D(), true)]), HalfPull(c), Collect(c.i);
    CatchesUp(h, c);
    t := IPulls(h, play, c, ws, acts, 11, Told(h, c), b, d, c.D(), InStep(h, c));
    u := IFails(h, play, c, ws + [t], acts + [a1], 11, d);
    v := ICollects(h, play, c, ws + [t] + [u], acts + [a1] + [a2], b, d);
    FileBack(h, c);
    x := IPullsBack(h, play, c, ws + [t] + [u] + [v], acts + [a1] + [a2] + [a3], 11, Forgetful(h, c), b, d,
                    c.F(), Reborn(h, c));
    Casting(h, c, u, Misled(h, c), b, d);
    Casting(h, c, v, Forgetful(h, c), b, d);
    Casting(h, c, x, Reborn(h, c), b, d);
    ComesBack(h, c, u, v, x);
  }

  lemma FourMore<T>(s: seq<T>, a: T, b: T, c: T, d: T)
    ensures |s + [a] + [b] + [c] + [d]| == |s| + 4
    ensures
      var r := s + [a] + [b] + [c] + [d];
      r[|s|] == a && r[|s| + 1] == b && r[|s| + 2] == c && r[|s| + 3] == d
  {
  }

  /** A deletion that comes back. `i` takes over a deletion in a batch that fails, so that its
      tree shows what the others have last reported. It collects, forgets the deletion, and
      takes the deleted file from a node that has not heard of it. Only the collection, the
      twelfth step, is made with a tree that does not show every tombstone. */
  lemma Resurrection(h: Hasher, play: iset<Text>, c: Scene) returns (ws: seq<World>, acts: seq<Action>)
    requires c.Ok(h, play)
    ensures |acts| == 13 && CarefulBut(h, play, ws, acts, 11) && acts[11] == Collect(c.i)
    ensures acts[10] == HalfPull(c) && c.i in ws[10].peers && Fails(ws[10], acts[10])
    ensures Returns(ws[11], ws[12], ws[13], c.i, c.file.path)
  {
    var before, done := Edited(h, play, c, 11);
    var t, u, v, x := Misfortune(h, play, c, before, done);
    ws := before + [t] + [u] + [v] + [x];
    acts := done + [Pull(c.i, c.j, [Item(c.D(), true)])] + [HalfPull(c)] + [Collect(c.i)]
      + [Pull(c.i, c.m, [Item(c.F(), true)])];
    FourMore(before, t, u, v, x);
    FourMore(done, Pull(c.i, c.j, [Item(c.D(), true)]), HalfPull(c), Collect(c.i), Pull(c.i, c.m, [Item(c.F(), true)]));
  }

  // ---------- there is such a scene ----------

  /** Nodes 1, 2 and 3, and the paths "d", "d/p" and "d/q". */
  ghost function Example(): Scene {
    Scene([1], [2], [3], Sample([100], Dir), Sample([100, 47, 112], File), Sample([100, 47, 113], Dir))
  }

  lemma ExamplePaths()
    ensures Example().PathsOk()
  {
    var c := Example();
    LetterBelow([], 100);
    LetterBelow([100], 112);
    LetterBelow([100], 113);
    assert Join([100], [112]) == c.file.path && Join([100], [113]) == c.other.path && Join([], [100]) == c.dir.path;
    assert c.file.path[1..] == [47, 112] && c.other.path[1..] == [47, 113];
    assert [47, 112][1..] == [112] && [47, 113][1..] == [113];
  }

  lemma ExampleIndices()
    ensures forall idx :: idx in {map[], Example().Bare(), Example().Full(), Example().Ahead()} ==>
      IndexOk(idx) && forall p :: p in idx ==> Sized(idx[p]) && |p| + 2 < U64
  {
    var c := Example();
    ExamplePaths();
    ValidIsClean(c.dir.path);
    ValidIsClean(c.file.path);
    ValidIsClean(c.other.path);
  }

  /** The run exists, for every hash. */
  lemma SceneExists(h: Hasher)
    ensures Example().Ok(h, AllText())
  {
    var c := Example();
    ExamplePaths();
    ExampleIndices();
    PlayableInAll(h, map[]);
    PlayableInAll(h, c.Bare());
    PlayableInAll(h, c.Full());
    PlayableInAll(h, c.Ahead());
  }
}
