/** Why an announcement needs a candid tree: a run in which a node buries a file in a batch that
    fails, then updates its tree for other paths and announces it. The other node, whose tree
    shows its index, collects with that announcement, and the burial is forgotten although
    nobody else has heard of it: the file comes back. */
module NetworkHidden {
  import opened Wrappers
  import opened Bytes
  import opened Paths
  import opened Entries
  import opened Tree
  import opened TreeUpdate
  import opened Ignore
  import opened Replicas
  import opened ReplicaFacts
  import opened Daemons
  import opened Network
  import opened NetworkTraces
  import opened NetworkScenes
  import opened NetworkFailures

  /** Two nodes; directories `dir`, `sub` and `other` inside it, `spare` beside it, and a file
      in `sub`. */
  datatype Plot = Plot(k: Text, o: Text, dir: Entry, sub: Entry, file: Entry, other: Entry, spare: Entry) {
    // what is written in the course of the run
    ghost function D(): Entry { dir.(version := Version(1, k)) }

    ghost function S(): Entry { sub.(version := Version(2, k)) }

    ghost function Z(): Entry { spare.(version := Version(3, k)) }

    ghost function E(): Entry { file.(version := Version(4, k)) }

    /** The deletion of `sub` by `o`. */
    ghost function F(): Entry { TombstoneOf(sub.path, S(), Version(3, o)) }

    ghost function Q(): Entry { other.(version := Version(4, o)) }

    /** What `k` buries when it hears of that. */
    ghost function T(): Entry { TombstoneOf(file.path, E(), Version(5, k)) }

    /** The deletion of `spare` by `k`. */
    ghost function Y(): Entry { TombstoneOf(spare.path, Z(), Version(6, k)) }

    ghost function Paths(): set<Text> {
      {dir.path, sub.path, file.path, other.path, spare.path}
    }

    predicate Apart() {
      && dir.path != sub.path && dir.path != file.path && dir.path != other.path && dir.path != spare.path
      && sub.path != file.path && sub.path != other.path && sub.path != spare.path
      && file.path != other.path && file.path != spare.path && other.path != spare.path
    }

    ghost predicate PathsValid() {
      && (forall p :: p in Paths() ==> ValidRemotePath(p))
      && Parent(dir.path) == [] && Parent(spare.path) == [] && Parent(sub.path) == dir.path
      && Parent(other.path) == dir.path && Parent(file.path) == sub.path
    }

    ghost predicate PathsPlaced() {
      && Le(sub.path, other.path) && Apart()
      && (forall q :: q in Paths() ==> (Below(q, sub.path) <==> q == file.path))
      && (forall q :: q in Paths() ==> !Below(q, file.path) && !Below(q, spare.path))
    }

    ghost predicate PathsOk() {
      PathsValid() && PathsPlaced()
    }

    predicate KindsOk() {
      k != o && dir.kind == Dir && sub.kind == Dir && other.kind == Dir && spare.kind == Dir && file.kind == File
    }
  }

  // ---------- the indices ----------

  ghost function I1(c: Plot): Index { map[c.dir.path := c.D()] }

  ghost function I2(c: Plot): Index { I1(c)[c.sub.path := c.S()] }

  ghost function I4(c: Plot): Index { I2(c)[c.spare.path := c.Z()][c.file.path := c.E()] }

  /** `o` on its way to what it shares with the tree of `k` */
  ghost function J3(c: Plot): Index { I2(c)[c.sub.path := c.F()][c.other.path := c.Q()] }

  ghost function J4(c: Plot): Index { J3(c)[c.spare.path := c.Z()] }

  ghost function J5(c: Plot): Index { J4(c)[c.file.path := c.E()] }

  ghost function J6(c: Plot): Index { J5(c)[c.spare.path := c.Y()] }

  /** `k` meanwhile */
  ghost function K3(c: Plot): Index { I4(c)[c.sub.path := c.F()][c.file.path := c.T()] }

  ghost function K4(c: Plot): Index { K3(c)[c.other.path := c.Q()] }

  ghost function K5(c: Plot): Index { K4(c)[c.spare.path := c.Y()] }

  /** and both after the collection. */
  ghost function I6(c: Plot): Index { map[c.dir.path := c.D(), c.other.path := c.Q()] }

  ghost function I7(c: Plot): Index { I6(c)[c.file.path := c.E()] }

  ghost predicate AllPlayable(h: Hasher, play: iset<Text>, c: Plot) {
    && Playable(h, play, map[]) && Playable(h, play, I1(c)) && Playable(h, play, I2(c)) && Playable(h, play, I4(c))
    && Playable(h, play, J3(c)) && Playable(h, play, J4(c)) && Playable(h, play, J5(c)) && Playable(h, play, J6(c))
    && Playable(h, play, I6(c)) && Playable(h, play, I7(c))
  }

  // ---------- the nodes ----------

  ghost function Marks(c: Plot): Watermark { map[c.o := 3, c.k := 6] }

  ghost function KHas2(c: Plot): Node { Plain(Replica(c.k, 2, map[], I2(c)), map[]) }

  ghost function KHas4(c: Plot): Node { Plain(Replica(c.k, 4, map[], I4(c)), map[]) }

  /** after the batch that fails, */
  ghost function KBehind(c: Plot): Node { Node(Replica(c.k, 5, map[], K3(c)), I4(c), map[], {c.T()}) }

  /** after one that succeeds, */
  ghost function KPartly(c: Plot): Node { Node(Replica(c.k, 5, map[], K4(c)), J5(c), map[], {c.T()}) }

  /** and after a local change. */
  ghost function KLiar(c: Plot): Node { Node(Replica(c.k, 6, map[], K5(c)), J6(c), map[], {c.T()}) }

  ghost function OHas1(c: Plot): Node { Plain(Replica(c.o, 1, map[], I1(c)), map[]) }

  ghost function OHas2(c: Plot): Node { Plain(Replica(c.o, 2, map[], I2(c)), map[]) }

  ghost function OHas3(c: Plot): Node { Plain(Replica(c.o, 4, map[], J3(c)), map[]) }

  ghost function OHas4(c: Plot): Node { Plain(Replica(c.o, 4, map[], J4(c)), map[]) }

  ghost function OHas5(c: Plot): Node { Plain(Replica(c.o, 4, map[], J5(c)), map[]) }

  ghost function OHas6(c: Plot): Node { Plain(Replica(c.o, 6, map[], J6(c)), map[]) }

  ghost function OTold(h: Hasher, c: Plot): Node
    requires IndexOk(J6(c))
  {
    OHas6(c).(reports := Heard(map[], Word(h, c.k, KLiar(c))))
  }

  /** `o` after the collection, which it announces with its watermark. */
  ghost function OSwept(h: Hasher, c: Plot): Node
    requires IndexOk(J6(c))
  {
    Plain(Replica(c.o, 7, Marks(c), I7(c)), OTold(h, c).reports)
  }

  ghost function Decree(h: Hasher, c: Plot): Announcement
    requires IndexOk(I7(c))
  {
    Announcement(c.o, Snapshot(h, I7(c)).rootHash, 7, Marks(c))
  }

  ghost function KForgot(h: Hasher, c: Plot): Node
    requires IndexOk(I7(c))
  {
    Plain(Replica(c.k, 7, Marks(c), I6(c)), Heard(map[], Decree(h, c)))
  }

  ghost function KReborn(h: Hasher, c: Plot): Node
    requires IndexOk(I7(c))
  {
    Plain(Replica(c.k, 7, Marks(c), I7(c)), Heard(map[], Decree(h, c)))
  }

  // ---------- what the steps do to the replicas ----------

  lemma DirsMade(c: Plot)
    requires c.PathsOk()
    ensures Leads(New(c.k).rep, [Folder(c.dir, map[]), Folder(c.sub, map[])], KHas2(c).rep)
  {
    var l := Log(New(c.k).rep, []);
    NotIgnored(c.dir.path);
    NotIgnored(c.sub.path);
    MakesDir(l, c.dir);
    var m := ApplyEvent(l, Folder(c.dir, map[]), []);
    assert m.rep == Replica(c.k, 1, map[], I1(c));
    MakesDir(m, c.sub);
    LeadsTwo(l.rep, Folder(c.dir, map[]), Folder(c.sub, map[]), KHas2(c).rep);
  }

  lemma RestMade(c: Plot)
    requires c.PathsOk()
    ensures Leads(KHas2(c).rep, [Folder(c.spare, map[]), Leaf(c.file)], KHas4(c).rep)
  {
    var l := Log(KHas2(c).rep, []);
    NotIgnored(c.spare.path);
    NotIgnored(c.file.path);
    MakesDir(l, c.spare);
    var m := ApplyEvent(l, Folder(c.spare, map[]), []);
    assert m.rep == Replica(c.k, 3, map[], I2(c)[c.spare.path := c.Z()]);
    LeafSeen(c, m);
    LeadsTwo(l.rep, Folder(c.spare, map[]), Leaf(c.file), KHas4(c).rep);
  }

  lemma LeafSeen(c: Plot, m: Log)
    requires c.Apart() && !ShouldIgnore(c.file.path, [])
    requires m.rep == Replica(c.k, 3, map[], I2(c)[c.spare.path := c.Z()])
    ensures ApplyEvent(m, Leaf(c.file), []).rep == KHas4(c).rep
  {
    ObservesNew(m, c.file);
  }

  lemma Taken1(c: Plot)
    requires c.PathsOk() && c.KindsOk()
    ensures Grabs(New(c.o), KHas2(c), c.D(), OHas1(c))
  {
    assert Stored(New(c.o).rep, c.D()).entries == I1(c);
  }

  lemma Taken2(c: Plot)
    requires c.PathsOk() && c.KindsOk()
    ensures Grabs(OHas1(c), KHas2(c), c.S(), OHas2(c))
  {
  }

  lemma SubGone(c: Plot)
    requires c.PathsOk() && c.KindsOk()
    ensures Leads(OHas2(c).rep, [Gone(c.sub.path), Folder(c.other, map[])], OHas3(c).rep)
  {
    var l := Log(OHas2(c).rep, []);
    NotIgnored(c.sub.path);
    NotIgnored(c.other.path);
    SubRemoved(c, l);
    var m := ApplyEvent(l, Gone(c.sub.path), []);
    OtherMade(c, m);
    LeadsTwo(l.rep, Gone(c.sub.path), Folder(c.other, map[]), OHas3(c).rep);
  }

  lemma OtherMade(c: Plot, m: Log)
    requires c.Apart() && !ShouldIgnore(c.other.path, []) && m.rep == Replica(c.o, 3, map[], I2(c)[c.sub.path := c.F()])
    ensures ApplyEvent(m, Folder(c.other, map[]), []).rep == OHas3(c).rep
  {
    MakesDir(m, c.other);
  }

  lemma SubRemoved(c: Plot, l: Log)
    requires c.PathsOk() && c.KindsOk() && l.rep == OHas2(c).rep
    ensures Remove(l, c.sub.path).rep == Replica(c.o, 3, map[], I2(c)[c.sub.path := c.F()])
  {
    forall q | q in l.rep.entries ensures !Below(q, c.sub.path) { assert q in c.Paths(); }
    RemovesOne(l, c.sub.path);
  }

  lemma Taken4(c: Plot)
    requires c.PathsOk() && c.KindsOk()
    ensures Grabs(OHas3(c), KHas4(c), c.Z(), OHas4(c))
  {
  }

  lemma Taken5(c: Plot)
    requires c.PathsOk() && c.KindsOk()
    ensures Grabs(OHas4(c), KHas4(c), c.E(), OHas5(c))
  {
    forall q | q in OHas4(c).rep.entries ensures !Below(q, c.file.path) { assert q in c.Paths(); }
  }

  /** `k` hears of the deletion of `sub` and buries the file in it. */
  lemma Buries(c: Plot)
    requires c.PathsOk() && c.KindsOk()
    ensures
      var l := Log(KHas4(c).rep, []);
      && ApplyOne(l, Item(c.F(), true)) == Ok(TombstoneOne(Store(l, c.F()), c.file.path))
      && TombstoneOne(Store(l, c.F()), c.file.path).rep == KBehind(c).rep
      && TombstoneOne(Store(l, c.F()), c.file.path).changes ==
           [Change(c.sub.path, Some(c.S()), c.F()), Change(c.file.path, Some(c.E()), c.T())]
  {
    var l := Log(KHas4(c).rep, []);
    var s := Store(l, c.F());
    OnlyFileBelow(c, s.rep.entries);
    assert [c.file.path][1..] == [];
    assert TombstoneAll(s, [c.file.path]) == TombstoneOne(s, c.file.path);
  }

  lemma OnlyFileBelow(c: Plot, idx: Index)
    requires c.PathsOk() && idx.Keys <= c.Paths() && c.file.path in idx
    ensures StrictlyBelow(idx, c.sub.path) == [c.file.path]
  {
    assert (set q | q in idx && Below(q, c.sub.path)) == {c.file.path};
    var ks := Sorted({c.file.path});
    assert |ks| == 1 && ks[0] in ks && ks == [ks[0]];
  }

  lemma HalfBuried(c: Plot)
    requires c.PathsOk() && c.KindsOk()
    ensures
      var r := ApplyBatch(Log(KHas4(c).rep, []), [Item(c.F(), true), Item(c.Q(), false)]);
      && r.failed == Some(Storage) && r.log.rep == KBehind(c).rep
      && r.log.changes == [Change(c.sub.path, Some(c.S()), c.F()), Change(c.file.path, Some(c.E()), c.T())]
  {
    Buries(c);
    OtherFails(c, TombstoneOne(Store(Log(KHas4(c).rep, []), c.F()), c.file.path));
    FirstThenNot(Log(KHas4(c).rep, []), Item(c.F(), true), Item(c.Q(), false));
  }

  lemma FirstThenNot(l: Log, a: Fetched, b: Fetched)
    requires ApplyOne(l, a).Ok? && ApplyOne(ApplyOne(l, a).value, b).Err?
    ensures ApplyBatch(l, [a, b]) == BatchResult(ApplyOne(l, a).value, Some(ApplyOne(ApplyOne(l, a).value, b).error))
  {
    assert [a, b][1..] == [b];
  }

  lemma OtherFails(c: Plot, m: Log)
    requires c.PathsOk() && c.KindsOk() && m.rep == KBehind(c).rep
    ensures ApplyOne(m, Item(c.Q(), false)) == Err(Storage)
  {
    assert c.other.path in c.Paths();
  }

  lemma PartlyTaken(c: Plot)
    requires c.PathsOk() && c.KindsOk()
    ensures Brings(KBehind(c).rep, J5(c), [Item(c.Q(), true)], KPartly(c).rep, [c.other.path])
  {
    TakesOne(KBehind(c).rep, c.Q());
    SingleBatch(J5(c), c.Q());
  }

  lemma SpareGone(c: Plot)
    requires c.PathsOk() && c.KindsOk()
    ensures Touches(KPartly(c).rep, [Gone(c.spare.path)], KLiar(c).rep, [c.spare.path])
  {
    var l := Log(KPartly(c).rep, []);
    NotIgnored(c.spare.path);
    OneEvent(l, Gone(c.spare.path));
    NothingInSpare(c, K4(c));
    RemovesOne(l, c.spare.path);
  }

  lemma NothingInSpare(c: Plot, idx: Index)
    requires c.PathsOk() && idx.Keys <= c.Paths()
    ensures forall q :: q in idx ==> !Below(q, c.spare.path)
  {
  }

  lemma GraveTaken(c: Plot)
    requires c.PathsOk() && c.KindsOk()
    ensures Grabs(OHas5(c), KLiar(c), c.Y(), OHas6(c))
  {
    NothingInSpare(c, J5(c));
  }

  lemma PrunedO(c: Plot)
    requires c.Apart() && c.KindsOk()
    ensures Prune(J6(c), Marks(c)) == I7(c) && J6(c) != I7(c)
  {
    assert c.sub.path in J6(c) && c.sub.path !in I7(c);
    forall p | p in J6(c) ensures DeadTombstone(Marks(c), J6(c)[p]) <==> p !in I7(c) {}
    assert forall p :: p in I7(c) ==> p in J6(c) && I7(c)[p] == J6(c)[p];
  }

  lemma PrunedK(c: Plot)
    requires c.Apart() && c.KindsOk()
    ensures Prune(K5(c), Marks(c)) == I6(c) && K5(c) != I6(c)
  {
    assert c.sub.path in K5(c) && c.sub.path !in I6(c);
    forall p | p in K5(c) ensures DeadTombstone(Marks(c), K5(c)[p]) <==> p !in I6(c) {}
    assert forall p :: p in I6(c) ==> p in K5(c) && I6(c)[p] == K5(c)[p];
  }

  lemma MergesMarks(c: Plot, r: Replica, left: Index)
    requires c.k != c.o && r.watermark == map[] && (r.origin == c.k || r.origin == c.o) && r.lamport == 6
    requires Prune(r.entries, Marks(c)) == left != r.entries
    ensures MergeWatermark(r, Marks(c)) == Replica(r.origin, 7, Marks(c), left)
  {
    MarksJoin(c);
    assert c.k in Marks(c) && Mark(map[], c.k) < Marks(c)[c.k];
  }

  lemma Swept(h: Hasher, c: Plot)
    requires c.PathsOk() && c.KindsOk() && IndexOk(J6(c))
    ensures Collects(OTold(h, c).rep, OSwept(h, c).rep)
  {
    MarksAre(c);
    PrunedO(c);
    MergesMarks(c, OTold(h, c).rep, I7(c));
    assert c.k in Marks(c);
    CollectsBy(OTold(h, c).rep, Marks(c));
  }

  lemma CollectsBy(r: Replica, m: Watermark)
    requires IsMarks(m, r.entries) && m != map[]
    ensures Collects(r, MergeWatermark(r, m))
  {
  }

  lemma MarksAre(c: Plot)
    requires c.PathsOk() && c.KindsOk()
    ensures IsMarks(Marks(c), J6(c))
  {
    assert TopTombstone(J6(c), c.sub.path, c.o, 3) && TopTombstone(J6(c), c.spare.path, c.k, 6);
  }

  lemma MarksJoin(c: Plot)
    ensures JoinMarks(map[], Marks(c)) == Marks(c)
  {
  }

  /** The watermark makes `k` forget three tombstones, one of them heard of by nobody else. */
  lemma Forgotten(h: Hasher, c: Plot)
    requires c.PathsOk() && c.KindsOk() && IndexOk(I7(c))
    ensures Forgets(KLiar(c), KForgot(h, c), Decree(h, c))
  {
    PrunedK(c);
    MergesMarks(c, KLiar(c).rep, I6(c));
    assert c.k in Marks(c);
  }

  lemma FileBackAt(h: Hasher, c: Plot)
    requires c.PathsOk() && c.KindsOk() && IndexOk(J6(c)) && IndexOk(I7(c))
    ensures Grabs(KForgot(h, c), OSwept(h, c), c.E(), KReborn(h, c))
  {
    NothingThere(c);
    assert ShouldAccept(KForgot(h, c).rep, c.E());
  }

  lemma NothingThere(c: Plot)
    requires c.PathsOk()
    ensures c.file.path !in I6(c) && forall q :: q in I6(c) ==> !Below(q, c.file.path)
  {
    forall q | q in I6(c) ensures !Below(q, c.file.path) { assert q in c.Paths(); }
  }

  // ---------- what the tree of `k` shows ----------

  lemma OnTheWay(c: Plot)
    requires c.PathsOk()
    ensures OnPathOf([], c.other.path) && OnPathOf(c.dir.path, c.other.path) && !OnPathOf(c.sub.path, c.other.path)
    ensures OnPathOf([], c.spare.path) && !OnPathOf(c.dir.path, c.spare.path) && !OnPathOf(c.sub.path, c.spare.path)
  {
    assert c.dir.path in c.Paths() && c.dir.path != [];
    assert Ancestors(c.other.path) == [c.dir.path] + Ancestors(c.dir.path);
    assert Ancestors(c.dir.path) == [[]] == Ancestors(c.spare.path);
  }

  /** After `other` has come, the tree shows that, and the deletion of `sub`, but not yet what
      was buried in `sub`. */
  lemma ShownPartly(keys: set<Text>, c: Plot)
    requires c.PathsOk()
    ensures Mixed(keys, I4(c), K4(c), [c.other.path]) == J5(c)
  {
    OnTheWay(c);
    forall p ensures SameAt(Mixed(keys, I4(c), K4(c), [c.other.path]), J5(c), p) {
      MixedAt(keys, I4(c), K4(c), [c.other.path], p);
      OneDirty(keys, K4(c), c.other.path, Parent(p));
      PartlyAt(c, p);
    }
    SameIndex(Mixed(keys, I4(c), K4(c), [c.other.path]), J5(c));
  }

  lemma PartlyAt(c: Plot, p: Text)
    requires c.Apart() && c.PathsOk()
    ensures SameAt(if OnPathOf(Parent(p), c.other.path) then K4(c) else I4(c), J5(c), p)
  {
    OnTheWay(c);
    if p !in c.Paths() { assert p !in K4(c) && p !in I4(c) && p !in J5(c); }
  }

  lemma ShownLiar(keys: set<Text>, c: Plot)
    requires c.PathsOk()
    ensures Mixed(keys, J5(c), K5(c), [c.spare.path]) == J6(c)
  {
    OnTheWay(c);
    forall p ensures SameAt(Mixed(keys, J5(c), K5(c), [c.spare.path]), J6(c), p) {
      MixedAt(keys, J5(c), K5(c), [c.spare.path], p);
      OneDirty(keys, K5(c), c.spare.path, Parent(p));
      LiarAt(c, p);
    }
    SameIndex(Mixed(keys, J5(c), K5(c), [c.spare.path]), J6(c));
  }

  lemma LiarAt(c: Plot, p: Text)
    requires c.Apart() && c.PathsOk()
    ensures SameAt(if OnPathOf(Parent(p), c.spare.path) then K5(c) else J5(c), J6(c), p)
  {
    OnTheWay(c);
    if p !in c.Paths() { assert p !in K5(c) && p !in J5(c) && p !in J6(c); }
  }

  lemma SameIndex(a: Index, b: Index)
    requires forall p :: SameAt(a, b, p)
    ensures a == b
  {
    forall p | p in a ensures p in b && a[p] == b[p] { assert SameAt(a, b, p); }
    forall p | p in b ensures p in a { assert SameAt(a, b, p); }
  }

  // ---------- one step of the story ----------

  ghost function Cast(c: Plot, a: Node, b: Node): map<Text, Node> {
    map[c.k := a, c.o := b]
  }

  lemma Roles(c: Plot, a: Node, b: Node)
    requires c.k != c.o
    ensures Cast(c, a, b).Keys == {c.k, c.o} && Cast(c, a, b)[c.k] == a && Cast(c, a, b)[c.o] == b
  {
  }

  lemma Recast(c: Plot, a: Node, b: Node, x: Node)
    requires c.k != c.o
    ensures Cast(c, a, b)[c.k := x] == Cast(c, x, b) && Cast(c, a, b)[c.o := x] == Cast(c, a, x)
  {
  }

  lemma Casting(h: Hasher, c: Plot, w: World, a: Node, b: Node)
    requires c.k != c.o && Plays(h, w, Cast(c, a, b))
    ensures w.peers.Keys == {c.k, c.o} && Is(h, w, c.k, a) && Is(h, w, c.o, b)
  {
    Roles(c, a, b);
    Acting(h, w, Cast(c, a, b), c.k);
    Acting(h, w, Cast(c, a, b), c.o);
  }

  lemma KChanges(h: Hasher, play: iset<Text>, c: Plot, ws: seq<World>, acts: seq<Action>, late: nat,
                 a: Node, b: Node, evs: seq<Event>, x: Node) returns (v: World)
    requires c.k != c.o && Story(h, play, ws, acts, late, Cast(c, a, b))
    requires a == Plain(a.rep, a.reports) && x == Plain(x.rep, a.reports) && Playable(h, play, x.shown)
    requires Leads(a.rep, evs, x.rep)
    ensures Story(h, play, ws + [v], acts + [Local(c.k, evs, [])], late, Cast(c, x, b))
  {
    Roles(c, a, b);
    Recast(c, a, b, x);
    v := Changes(h, play, ws, acts, late, Cast(c, a, b), c.k, evs, x.rep);
  }

  lemma OChanges(h: Hasher, play: iset<Text>, c: Plot, ws: seq<World>, acts: seq<Action>, late: nat,
                 a: Node, b: Node, evs: seq<Event>, x: Node) returns (v: World)
    requires c.k != c.o && Story(h, play, ws, acts, late, Cast(c, a, b))
    requires b == Plain(b.rep, b.reports) && x == Plain(x.rep, b.reports) && Playable(h, play, x.shown)
    requires Leads(b.rep, evs, x.rep)
    ensures Story(h, play, ws + [v], acts + [Local(c.o, evs, [])], late, Cast(c, a, x))
  {
    Roles(c, a, b);
    Recast(c, a, b, x);
    v := Changes(h, play, ws, acts, late, Cast(c, a, b), c.o, evs, x.rep);
  }

  lemma OPulls(h: Hasher, play: iset<Text>, c: Plot, ws: seq<World>, acts: seq<Action>, late: nat,
               a: Node, b: Node, e: Entry, x: Node) returns (v: World)
    requires c.k != c.o && Story(h, play, ws, acts, late, Cast(c, a, b))
    requires Grabs(b, a, e, x) && Playable(h, play, x.shown)
    ensures Story(h, play, ws + [v], acts + [Pull(c.o, c.k, [Item(e, true)])], late, Cast(c, a, x))
  {
    Roles(c, a, b);
    Recast(c, a, b, x);
    v := PullsOne(h, play, ws, acts, late, Cast(c, a, b), c.o, c.k, e, x);
  }

  lemma KPulls(h: Hasher, play: iset<Text>, c: Plot, ws: seq<World>, acts: seq<Action>, late: nat,
               a: Node, b: Node, e: Entry, x: Node) returns (v: World)
    requires c.k != c.o && Story(h, play, ws, acts, late, Cast(c, a, b))
    requires Grabs(a, b, e, x) && Playable(h, play, x.shown)
    ensures Story(h, play, ws + [v], acts + [Pull(c.k, c.o, [Item(e, true)])], late, Cast(c, x, b))
  {
    Roles(c, a, b);
    Recast(c, a, b, x);
    v := PullsOne(h, play, ws, acts, late, Cast(c, a, b), c.k, c.o, e, x);
  }

  // ---------- the steps of the tree left behind ----------

  ghost function HalfPull(c: Plot): Action {
    Pull(c.k, c.o, [Item(c.F(), true), Item(c.Q(), false)])
  }

  lemma TwoItems(c: Plot)
    requires c.PathsOk() && c.KindsOk()
    ensures IsBatch(J5(c), [Item(c.F(), true), Item(c.Q(), false)])
  {
  }

  lemma OneBurial(c: Plot, changes: seq<Change>)
    requires c.k != c.o
    requires changes == [Change(c.sub.path, Some(c.S()), c.F()), Change(c.file.path, Some(c.E()), c.T())]
    ensures WrittenBy(c.k, 4, NextEntries(changes)) == {c.T()}
  {
    assert changes[0].next == c.F() && changes[1].next == c.T();
  }

  lemma HalfStumble(h: Hasher, play: iset<Text>, c: Plot, w: World)
    requires c.PathsOk() && c.KindsOk() && Is(h, w, c.k, KHas4(c)) && Is(h, w, c.o, OHas5(c))
    requires Playable(h, play, I4(c))
    ensures Stumble(h, play, w, HalfPull(c), KHas4(c), KBehind(c))
  {
    TwoItems(c);
    HalfBuried(c);
    OneBurial(c, Effect(w, HalfPull(c)).changes);
  }

  lemma KStumbles(h: Hasher, play: iset<Text>, c: Plot, ws: seq<World>, acts: seq<Action>, late: nat,
                  a: Node, b: Node, act: Action, x: Node) returns (v: World)
    requires c.k != c.o && Story(h, play, ws, acts, late, Cast(c, a, b)) && act.node == c.k
    requires Stumble(h, play, Now(ws), act, a, x)
    ensures Story(h, play, ws + [v], acts + [act], late, Cast(c, x, b))
  {
    Roles(c, a, b);
    Recast(c, a, b, x);
    v := Stumbles(h, play, ws, acts, late, Cast(c, a, b), act, a, x);
  }

  ghost function SecondPull(c: Plot): Action { Pull(c.k, c.o, [Item(c.Q(), true)]) }

  /** What is buried stays hidden behind the file the tree shows. */
  lemma StillHidden(c: Plot, shown: Index)
    requires c.file.path in shown && shown[c.file.path] == c.E()
    ensures {c.T()} == set e | e in {c.T()} && !Shows(shown, e)
  {
  }

  lemma SecondUpdate(h: Hasher, c: Plot)
    requires c.PathsOk() && IndexOk(I4(c))
    ensures Updated(h, KBehind(c), KPartly(c), [c.other.path])
  {
    ShownPartly(Snapshot(h, I4(c)).nodes.Keys, c);
    StillHidden(c, J5(c));
  }

  ghost function SpareEvent(c: Plot): Action { Local(c.k, [Gone(c.spare.path)], []) }

  lemma SpareUpdate(h: Hasher, c: Plot)
    requires c.PathsOk() && IndexOk(J5(c))
    ensures Updated(h, KPartly(c), KLiar(c), [c.spare.path])
  {
    LiarShowsFile(c);
    ShownLiar(Snapshot(h, J5(c)).nodes.Keys, c);
    StillHidden(c, J6(c));
  }

  lemma LiarShowsFile(c: Plot)
    requires c.Apart()
    ensures c.file.path in J6(c) && J6(c)[c.file.path] == c.E()
  {
  }

  lemma KPatches(h: Hasher, play: iset<Text>, c: Plot, ws: seq<World>, acts: seq<Action>, late: nat,
                 a: Node, b: Node, act: Action, x: Node, ps: seq<Text>) returns (v: World)
    requires c.k != c.o && Story(h, play, ws, acts, late, Cast(c, a, b)) && act.node == c.k
    requires Patch(h, play, Now(ws), act, a, x, ps)
    ensures Story(h, play, ws + [v], acts + [act], late, Cast(c, x, b))
  {
    Roles(c, a, b);
    Recast(c, a, b, x);
    v := Patches(h, play, ws, acts, late, Cast(c, a, b), act, a, x, ps);
  }

  // ---------- what is said, and the collection ----------

  /** The one careless step. */
  lemma KLies(h: Hasher, play: iset<Text>, c: Plot, ws: seq<World>, acts: seq<Action>) returns (v: World)
    requires c.Apart() && c.k != c.o && Playable(h, play, J6(c))
    requires Story(h, play, ws, acts, |acts|, Cast(c, KLiar(c), OHas6(c)))
    ensures Story(h, play, ws + [v], acts + [Announce(c.k, Word(h, c.k, KLiar(c)))], |acts|,
                  Cast(c, KLiar(c), OHas6(c)))
    ensures Word(h, c.k, KLiar(c)) in v.sent
  {
    var cast := Cast(c, KLiar(c), OHas6(c));
    Roles(c, KLiar(c), OHas6(c));
    Recast(c, KLiar(c), OHas6(c), KLiar(c));
    StillHidden(c, J6(c));
    MayAnnounce(h, play, Now(ws), cast, c.k, Word(h, c.k, KLiar(c)));
    v := Tell(h, play, ws, acts, |acts|, cast, Announce(c.k, Word(h, c.k, KLiar(c))), KLiar(c));
  }

  lemma OHears(h: Hasher, play: iset<Text>, c: Plot, ws: seq<World>, acts: seq<Action>, late: nat)
    returns (v: World)
    requires c.k != c.o && Playable(h, play, J6(c))
    requires Story(h, play, ws, acts, late, Cast(c, KLiar(c), OHas6(c))) && Word(h, c.k, KLiar(c)) in Now(ws).sent
    ensures Story(h, play, ws + [v], acts + [Deliver(c.o, Word(h, c.k, KLiar(c)))], late,
                  Cast(c, KLiar(c), OTold(h, c)))
  {
    Roles(c, KLiar(c), OHas6(c));
    Recast(c, KLiar(c), OHas6(c), OTold(h, c));
    v := Hears(h, play, ws, acts, late, Cast(c, KLiar(c), OHas6(c)), c.o, Word(h, c.k, KLiar(c)));
  }

  /** The root `k` has reported is that of `o`. */
  lemma Deceived(h: Hasher, c: Plot, w: World)
    requires c.k != c.o && IndexOk(J6(c)) && w.peers.Keys == {c.k, c.o} && Is(h, w, c.o, OTold(h, c))
    ensures Agreed(w, c.o)
  {
    assert w.peers.Keys - {c.o} == {c.k};
  }

  lemma SweepTurn(h: Hasher, play: iset<Text>, c: Plot, w: World)
    requires c.k != c.o && Playable(h, play, I7(c)) && IndexOk(J6(c)) && J6(c) != I7(c)
    requires Collects(OTold(h, c).rep, OSwept(h, c).rep)
    requires w.peers.Keys == {c.k, c.o} && Is(h, w, c.o, OTold(h, c))
    ensures Turn(h, play, w, Collect(c.o), OSwept(h, c)) && Cautious(w, Collect(c.o))
  {
    Deceived(h, c, w);
    CollectStep(h, w, c.o, OTold(h, c), OSwept(h, c).rep);
    CollectingTurn(h, play, w, c.o, OTold(h, c), OSwept(h, c));
  }

  lemma OSweeps(h: Hasher, play: iset<Text>, c: Plot, ws: seq<World>, acts: seq<Action>, late: nat)
    returns (v: World)
    requires c.k != c.o && Playable(h, play, I7(c)) && IndexOk(J6(c)) && J6(c) != I7(c)
    requires Collects(OTold(h, c).rep, OSwept(h, c).rep)
    requires Story(h, play, ws, acts, late, Cast(c, KLiar(c), OTold(h, c)))
    ensures Story(h, play, ws + [v], acts + [Collect(c.o)], late, Cast(c, KLiar(c), OSwept(h, c)))
  {
    Casting(h, c, Now(ws), KLiar(c), OTold(h, c));
    SweepTurn(h, play, c, Now(ws));
    Roles(c, KLiar(c), OTold(h, c));
    Recast(c, KLiar(c), OTold(h, c), OSwept(h, c));
    v := Tell(h, play, ws, acts, late, Cast(c, KLiar(c), OTold(h, c)), Collect(c.o), OSwept(h, c));
  }

  lemma ODecrees(h: Hasher, play: iset<Text>, c: Plot, ws: seq<World>, acts: seq<Action>, late: nat)
    returns (v: World)
    requires c.k != c.o && Playable(h, play, I7(c)) && IndexOk(J6(c))
    requires Story(h, play, ws, acts, late, Cast(c, KLiar(c), OSwept(h, c)))
    ensures Story(h, play, ws + [v], acts + [Announce(c.o, Decree(h, c))], late, Cast(c, KLiar(c), OSwept(h, c)))
    ensures Decree(h, c) in v.sent
  {
    Roles(c, KLiar(c), OSwept(h, c));
    v := Speaks(h, play, ws, acts, late, Cast(c, KLiar(c), OSwept(h, c)), c.o, Decree(h, c));
  }

  lemma KObeys(h: Hasher, play: iset<Text>, c: Plot, ws: seq<World>, acts: seq<Action>, late: nat, b: Node)
    returns (v: World)
    requires c.k != c.o && Playable(h, play, I6(c)) && IndexOk(I7(c))
    requires Forgets(KLiar(c), KForgot(h, c), Decree(h, c))
    requires Story(h, play, ws, acts, late, Cast(c, KLiar(c), b)) && Decree(h, c) in Now(ws).sent
    ensures Story(h, play, ws + [v], acts + [Deliver(c.k, Decree(h, c))], late, Cast(c, KForgot(h, c), b))
  {
    Roles(c, KLiar(c), b);
    Recast(c, KLiar(c), b, KForgot(h, c));
    Casting(h, c, Now(ws), KLiar(c), b);
    ForgettingTurn(h, play, Now(ws), c.k, Decree(h, c), KLiar(c), KForgot(h, c));
    v := Tell(h, play, ws, acts, late, Cast(c, KLiar(c), b), Deliver(c.k, Decree(h, c)), KForgot(h, c));
  }

  // ---------- the story ----------

  ghost predicate PlotOk(h: Hasher, play: iset<Text>, c: Plot) {
    c.PathsOk() && c.KindsOk() && AllPlayable(h, play, c)
  }

  lemma Curtain(h: Hasher, play: iset<Text>, c: Plot, late: nat)
    requires c.k != c.o && Playable(h, play, map[])
    ensures Story(h, play, [Beginning(h, {c.k, c.o})], [], late, Cast(c, New(c.k), New(c.o)))
  {
    Begin(h, play, {c.k, c.o}, late);
    BothNew(c);
  }

  lemma BothNew(c: Plot)
    ensures Cast(c, New(c.k), New(c.o)) == map i | i in {c.k, c.o} :: New(i)
  {
  }

  /** `k` makes two directories, */
  lemma First(h: Hasher, play: iset<Text>, c: Plot, late: nat) returns (ws: seq<World>, acts: seq<Action>)
    requires PlotOk(h, play, c) && 1 <= late
    ensures |acts| == 1 && Story(h, play, ws, acts, late, Cast(c, KHas2(c), New(c.o)))
  {
    Curtain(h, play, c, late);
    DirsMade(c);
    var evs := [Folder(c.dir, map[]), Folder(c.sub, map[])];
    var v := KChanges(h, play, c, [Beginning(h, {c.k, c.o})], [], late, New(c.k), New(c.o), evs, KHas2(c));
    ws, acts := [Beginning(h, {c.k, c.o})] + [v], [] + [Local(c.k, evs, [])];
  }

  /** and `o` takes them over. */
  lemma Opening(h: Hasher, play: iset<Text>, c: Plot, late: nat) returns (ws: seq<World>, acts: seq<Action>)
    requires PlotOk(h, play, c) && 3 <= late
    ensures |acts| == 3 && Story(h, play, ws, acts, late, Cast(c, KHas2(c), OHas2(c)))
  {
    ws, acts := First(h, play, c, late);
    Taken1(c);
    var v := OPulls(h, play, c, ws, acts, late, KHas2(c), New(c.o), c.D(), OHas1(c));
    ws, acts := ws + [v], acts + [Pull(c.o, c.k, [Item(c.D(), true)])];
    Taken2(c);
    v := OPulls(h, play, c, ws, acts, late, KHas2(c), OHas1(c), c.S(), OHas2(c));
    ws, acts := ws + [v], acts + [Pull(c.o, c.k, [Item(c.S(), true)])];
  }

  /** `k` adds the spare directory and the file, `o` deletes `sub` and adds `other`. */
  lemma Edited(h: Hasher, play: iset<Text>, c: Plot, late: nat) returns (ws: seq<World>, acts: seq<Action>)
    requires PlotOk(h, play, c) && 5 <= late
    ensures |acts| == 5 && Story(h, play, ws, acts, late, Cast(c, KHas4(c), OHas3(c)))
  {
    ws, acts := Opening(h, play, c, late);
    RestMade(c);
    var evs := [Folder(c.spare, map[]), Leaf(c.file)];
    var v := KChanges(h, play, c, ws, acts, late, KHas2(c), OHas2(c), evs, KHas4(c));
    ws, acts := ws + [v], acts + [Local(c.k, evs, [])];
    SubGone(c);
    evs := [Gone(c.sub.path), Folder(c.other, map[])];
    v := OChanges(h, play, c, ws, acts, late, KHas4(c), OHas2(c), evs, OHas3(c));
    ws, acts := ws + [v], acts + [Local(c.o, evs, [])];
  }

  /** `o` takes over what `k` has added. */
  lemma CaughtUp(h: Hasher, play: iset<Text>, c: Plot, late: nat) returns (ws: seq<World>, acts: seq<Action>)
    requires PlotOk(h, play, c) && 7 <= late
    ensures |acts| == 7 && Story(h, play, ws, acts, late, Cast(c, KHas4(c), OHas5(c)))
  {
    ws, acts := Edited(h, play, c, late);
    Taken4(c);
    var v := OPulls(h, play, c, ws, acts, late, KHas4(c), OHas3(c), c.Z(), OHas4(c));
    ws, acts := ws + [v], acts + [Pull(c.o, c.k, [Item(c.Z(), true)])];
    Taken5(c);
    v := OPulls(h, play, c, ws, acts, late, KHas4(c), OHas4(c), c.E(), OHas5(c));
    ws, acts := ws + [v], acts + [Pull(c.o, c.k, [Item(c.E(), true)])];
  }

  ghost predicate FailsHere(c: Plot, w: World) {
    c.k in w.peers && Fails(w, HalfPull(c))
  }

  /** `k` buries the file in a batch that fails, and updates its tree for other paths. */
  lemma Misled(h: Hasher, play: iset<Text>, c: Plot, ws: seq<World>, acts: seq<Action>, late: nat)
    returns (t: World, u: World, v: World)
    requires PlotOk(h, play, c) && Story(h, play, ws, acts, late, Cast(c, KHas4(c), OHas5(c)))
    ensures Story(h, play, ws + [t] + [u] + [v], acts + [HalfPull(c)] + [SecondPull(c)] + [SpareEvent(c)], late,
                  Cast(c, KLiar(c), OHas5(c)))
    ensures FailsHere(c, Now(ws))
  {
    Casting(h, c, Now(ws), KHas4(c), OHas5(c));
    HalfStumble(h, play, c, Now(ws));
    t := KStumbles(h, play, c, ws, acts, late, KHas4(c), OHas5(c), HalfPull(c), KBehind(c));
    u, v := Patched(h, play, c, ws + [t], acts + [HalfPull(c)], late);
  }

  lemma Patched(h: Hasher, play: iset<Text>, c: Plot, ws: seq<World>, acts: seq<Action>, late: nat)
    returns (u: World, v: World)
    requires PlotOk(h, play, c) && Story(h, play, ws, acts, late, Cast(c, KBehind(c), OHas5(c)))
    ensures Story(h, play, ws + [u] + [v], acts + [SecondPull(c)] + [SpareEvent(c)], late,
                  Cast(c, KLiar(c), OHas5(c)))
  {
    Casting(h, c, Now(ws), KBehind(c), OHas5(c));
    PartlyTaken(c);
    BringsSo(h, Now(ws), c.k, c.o, KBehind(c), OHas5(c), [Item(c.Q(), true)], KPartly(c).rep, [c.other.path]);
    SecondUpdate(h, c);
    u := KPatches(h, play, c, ws, acts, late, KBehind(c), OHas5(c), SecondPull(c), KPartly(c), [c.other.path]);
    v := PatchedOn(h, play, c, ws + [u], acts + [SecondPull(c)], late);
  }

  lemma PatchedOn(h: Hasher, play: iset<Text>, c: Plot, ws: seq<World>, acts: seq<Action>, late: nat)
    returns (v: World)
    requires PlotOk(h, play, c) && Story(h, play, ws, acts, late, Cast(c, KPartly(c), OHas5(c)))
    ensures Story(h, play, ws + [v], acts + [SpareEvent(c)], late, Cast(c, KLiar(c), OHas5(c)))
  {
    Casting(h, c, Now(ws), KPartly(c), OHas5(c));
    SpareGone(c);
    TouchesSo(h, Now(ws), c.k, KPartly(c), [Gone(c.spare.path)], KLiar(c).rep, [c.spare.path]);
    SpareUpdate(h, c);
    v := KPatches(h, play, c, ws, acts, late, KPartly(c), OHas5(c), SpareEvent(c), KLiar(c), [c.spare.path]);
  }

  lemma ThreeMore<T>(s: seq<T>, a: T, b: T, c: T)
    ensures
      var r := s + [a] + [b] + [c];
      |r| == |s| + 3 && r[|s|] == a && r[|s| + 1] == b && r[|s| + 2] == c && forall n :: 0 <= n < |s| ==> r[n] == s[n]
  {
  }

  lemma TwoMore<T>(s: seq<T>, a: T, b: T)
    ensures
      var r := s + [a] + [b];
      |r| == |s| + 2 && r[|s|] == a && r[|s| + 1] == b && forall n :: 0 <= n < |s| ==> r[n] == s[n]
  {
  }

  /** The eighth step is the batch that fails, and the next two update the tree. */
  ghost predicate Failed(c: Plot, ws: seq<World>, acts: seq<Action>) {
    && 10 <= |acts| && 8 <= |ws| && acts[7] == HalfPull(c) && FailsHere(c, ws[7])
    && acts[8] == SecondPull(c) && acts[9] == SpareEvent(c)
  }

  lemma Tangle(h: Hasher, play: iset<Text>, c: Plot) returns (ws: seq<World>, acts: seq<Action>)
    requires PlotOk(h, play, c)
    ensures |acts| == 10 && |ws| == 11 && Story(h, play, ws, acts, 11, Cast(c, KLiar(c), OHas5(c)))
    ensures Failed(c, ws, acts)
  {
    var before, done := CaughtUp(h, play, c, 11);
    var t, u, v := Misled(h, play, c, before, done, 11);
    ws, acts := before + [t] + [u] + [v], done + [HalfPull(c)] + [SecondPull(c)] + [SpareEvent(c)];
    LengthsThen(h, play, c, before, done);
    FailedEighth(c, before, done, t, u, v);
  }

  lemma LengthsThen(h: Hasher, play: iset<Text>, c: Plot, ws: seq<World>, acts: seq<Action>)
    requires |acts| == 7 && Story(h, play, ws, acts, 11, Cast(c, KHas4(c), OHas5(c)))
    ensures |ws| == 8
  {
    StoryLength(h, play, ws, acts, 11, Cast(c, KHas4(c), OHas5(c)));
  }

  lemma FailedEighth(c: Plot, before: seq<World>, done: seq<Action>, t: World, u: World, v: World)
    requires |before| == 8 && |done| == 7 && FailsHere(c, Now(before))
    ensures Failed(c, before + [t] + [u] + [v], done + [HalfPull(c)] + [SecondPull(c)] + [SpareEvent(c)])
    ensures |before + [t] + [u] + [v]| == 11
    ensures |done + [HalfPull(c)] + [SecondPull(c)] + [SpareEvent(c)]| == 10
  {
    ThreeMore(before, t, u, v);
    ThreeMore(done, HalfPull(c), SecondPull(c), SpareEvent(c));
  }

  /** `o` takes over what `k` has done locally, and `k` announces its tree. */
  lemma Deceit(h: Hasher, play: iset<Text>, c: Plot, ws: seq<World>, acts: seq<Action>)
    returns (t: World, u: World)
    requires PlotOk(h, play, c) && |acts| == 10 && Story(h, play, ws, acts, 11, Cast(c, KLiar(c), OHas5(c)))
    ensures Story(h, play, ws + [t] + [u],
                  acts + [Pull(c.o, c.k, [Item(c.Y(), true)])] + [Announce(c.k, Word(h, c.k, KLiar(c)))], 11,
                  Cast(c, KLiar(c), OHas6(c)))
    ensures Word(h, c.k, KLiar(c)) in u.sent
  {
    GraveTaken(c);
    t := OPulls(h, play, c, ws, acts, 11, KLiar(c), OHas5(c), c.Y(), OHas6(c));
    u := KLies(h, play, c, ws + [t], acts + [Pull(c.o, c.k, [Item(c.Y(), true)])]);
  }

  /** `o` hears that, collects, and announces its watermark. */
  lemma Sweep(h: Hasher, play: iset<Text>, c: Plot, ws: seq<World>, acts: seq<Action>)
    returns (t: World, u: World, v: World)
    requires PlotOk(h, play, c) && |acts| == 12
    requires Story(h, play, ws, acts, 11, Cast(c, KLiar(c), OHas6(c))) && Word(h, c.k, KLiar(c)) in Now(ws).sent
    ensures Story(h, play, ws + [t] + [u] + [v],
                  acts + [Deliver(c.o, Word(h, c.k, KLiar(c)))] + [Collect(c.o)] + [Announce(c.o, Decree(h, c))],
                  11, Cast(c, KLiar(c), OSwept(h, c)))
    ensures Decree(h, c) in v.sent
  {
    PrunedO(c);
    Swept(h, c);
    var told := acts + [Deliver(c.o, Word(h, c.k, KLiar(c)))];
    t := OHears(h, play, c, ws, acts, 11);
    u := OSweeps(h, play, c, ws + [t], told, 11);
    v := ODecrees(h, play, c, ws + [t] + [u], told + [Collect(c.o)], 11);
  }

  /** A deletion by `k` itself that is forgotten, and what it deleted comes back. */
  ghost predicate BurialUndone(c: Plot, u: World, v: World, x: World) {
    Returns(u, v, x, c.k, c.file.path) && EntryAt(u, c.k, c.file.path) == c.T()
  }

  lemma FileReturns(h: Hasher, c: Plot, u: World, v: World, x: World)
    requires c.Apart() && c.file.kind == File && IndexOk(I7(c))
    requires Is(h, u, c.k, KLiar(c)) && Is(h, v, c.k, KForgot(h, c)) && Is(h, x, c.k, KReborn(h, c))
    ensures BurialUndone(c, u, v, x)
  {
    FileThere(c);
    assert u.peers[c.k].rep.entries == K5(c) && v.peers[c.k].rep.entries == I6(c) && x.peers[c.k].rep.entries == I7(c);
  }

  lemma FileThere(c: Plot)
    requires c.Apart()
    ensures c.file.path in K5(c) && K5(c)[c.file.path] == c.T() && c.file.path !in I6(c)
    ensures c.file.path in I7(c) && I7(c)[c.file.path] == c.E()
  {
  }

  lemma Standing(h: Hasher, play: iset<Text>, c: Plot, ws: seq<World>, acts: seq<Action>, a: Node, b: Node)
    requires c.k != c.o && Story(h, play, ws, acts, 11, Cast(c, a, b))
    ensures Is(h, Now(ws), c.k, a)
  {
    Casting(h, c, Now(ws), a, b);
  }

  ghost function Obeyed(h: Hasher, c: Plot): Action
    requires IndexOk(I7(c))
  {
    Deliver(c.k, Decree(h, c))
  }

  ghost function LastPull(c: Plot): Action { Pull(c.k, c.o, [Item(c.E(), true)]) }

  /** `k` forgets what it has buried, and takes it back. */
  lemma Aftermath(h: Hasher, play: iset<Text>, c: Plot, ws: seq<World>, acts: seq<Action>)
    returns (v: World, x: World)
    requires PlotOk(h, play, c) && |acts| == 15
    requires Story(h, play, ws, acts, 11, Cast(c, KLiar(c), OSwept(h, c))) && Decree(h, c) in Now(ws).sent
    ensures Story(h, play, ws + [v], acts + [Obeyed(h, c)], 11, Cast(c, KForgot(h, c), OSwept(h, c)))
    ensures Story(h, play, ws + [v] + [x], acts + [Obeyed(h, c)] + [LastPull(c)], 11,
                  Cast(c, KReborn(h, c), OSwept(h, c)))
  {
    Forgotten(h, c);
    v := KObeys(h, play, c, ws, acts, 11, OSwept(h, c));
    FileBackAt(h, c);
    x := KPulls(h, play, c, ws + [v], acts + [Obeyed(h, c)], 11, KForgot(h, c), OSwept(h, c), c.E(), KReborn(h, c));
  }

  lemma Undone(h: Hasher, play: iset<Text>, c: Plot, us: seq<World>, vs: seq<World>, xs: seq<World>,
               a: seq<Action>, b: seq<Action>, d: seq<Action>, o: Node)
    requires c.Apart() && c.k != c.o && c.file.kind == File && IndexOk(I7(c))
    requires Story(h, play, us, a, 11, Cast(c, KLiar(c), o)) && Story(h, play, vs, b, 11, Cast(c, KForgot(h, c), o))
    requires Story(h, play, xs, d, 11, Cast(c, KReborn(h, c), o))
    ensures BurialUndone(c, Now(us), Now(vs), Now(xs))
  {
    Standing(h, play, c, us, a, KLiar(c), o);
    Standing(h, play, c, vs, b, KForgot(h, c), o);
    Standing(h, play, c, xs, d, KReborn(h, c), o);
    FileReturns(h, c, Now(us), Now(vs), Now(xs));
  }

  lemma Lied(h: Hasher, play: iset<Text>, c: Plot) returns (ws: seq<World>, acts: seq<Action>)
    requires PlotOk(h, play, c)
    ensures |acts| == 12 && Story(h, play, ws, acts, 11, Cast(c, KLiar(c), OHas6(c)))
    ensures |ws| == 13 && Failed(c, ws, acts) && acts[11] == Announce(c.k, Word(h, c.k, KLiar(c)))
    ensures Word(h, c.k, KLiar(c)) in Now(ws).sent
  {
    var before, done := Tangle(h, play, c);
    var t, u := Deceit(h, play, c, before, done);
    ws := before + [t] + [u];
    acts := done + [Pull(c.o, c.k, [Item(c.Y(), true)])] + [Announce(c.k, Word(h, c.k, KLiar(c)))];
    TwoMore(before, t, u);
    TwoMore(done, Pull(c.o, c.k, [Item(c.Y(), true)]), Announce(c.k, Word(h, c.k, KLiar(c))));
  }

  lemma Collected(h: Hasher, play: iset<Text>, c: Plot) returns (ws: seq<World>, acts: seq<Action>)
    requires PlotOk(h, play, c)
    ensures |acts| == 15 && Story(h, play, ws, acts, 11, Cast(c, KLiar(c), OSwept(h, c)))
    ensures |ws| == 16 && Failed(c, ws, acts) && acts[11] == Announce(c.k, Word(h, c.k, KLiar(c)))
    ensures acts[13] == Collect(c.o) && Decree(h, c) in Now(ws).sent
  {
    var before, done := Lied(h, play, c);
    var t, u, v := Sweep(h, play, c, before, done);
    ws := before + [t] + [u] + [v];
    acts := done + [Deliver(c.o, Word(h, c.k, KLiar(c)))] + [Collect(c.o)] + [Announce(c.o, Decree(h, c))];
    ThreeMore(before, t, u, v);
    ThreeMore(done, Deliver(c.o, Word(h, c.k, KLiar(c))), Collect(c.o), Announce(c.o, Decree(h, c)));
  }

  /** What is told: after that, `k` announces at the twelfth step and `o` collects at the
      fourteenth. */
  ghost predicate Told(h: Hasher, c: Plot, ws: seq<World>, acts: seq<Action>)
    requires IndexOk(J6(c))
  {
    && 15 <= |acts| && 16 <= |ws| && Failed(c, ws, acts)
    && acts[11] == Announce(c.k, Word(h, c.k, KLiar(c))) && acts[13] == Collect(c.o)
  }

  lemma LastTwo(h: Hasher, c: Plot, ws: seq<World>, acts: seq<Action>, v: World, x: World, a: Action, b: Action)
    requires IndexOk(J6(c)) && |ws| == 16 && |acts| == 15 && Told(h, c, ws, acts)
    ensures Told(h, c, ws + [v] + [x], acts + [a] + [b]) && |acts + [a] + [b]| == 17
    ensures Now(ws) == (ws + [v] + [x])[15] && v == (ws + [v] + [x])[16] && x == (ws + [v] + [x])[17]
  {
    TwoMore(ws, v, x);
    TwoMore(acts, a, b);
  }

  /** A burial that is forgotten before anyone else has heard of it. `k` buries a file in a
      batch that fails, updates its tree for two other paths, and announces it, which is the
      one careless step. `o`, whose tree shows its index, collects with that. */
  lemma HiddenBurial(h: Hasher, play: iset<Text>, c: Plot) returns (ws: seq<World>, acts: seq<Action>)
    requires PlotOk(h, play, c)
    ensures |acts| == 17 && CarefulBut(h, play, ws, acts, 11) && Told(h, c, ws, acts)
    ensures BurialUndone(c, ws[15], ws[16], ws[17])
  {
    var before, done := Collected(h, play, c);
    var v, x := Aftermath(h, play, c, before, done);
    ws, acts := before + [v] + [x], done + [Obeyed(h, c)] + [LastPull(c)];
    Undone(h, play, c, before, before + [v], ws, done, done + [Obeyed(h, c)], acts, OSwept(h, c));
    LastTwo(h, c, before, done, v, x, Obeyed(h, c), LastPull(c));
  }

  // ---------- there is such a plot ----------

  /** Nodes 1 and 2, and the paths "d", "d/s", "d/s/e", "d/t" and "z". */
  ghost function Example(): Plot {
    Plot([1], [2], Sample([100], Dir), Sample([100, 47, 115], Dir), Sample([100, 47, 115, 47, 101], File),
         Sample([100, 47, 116], Dir), Sample([122], Dir))
  }

  lemma ExamplePaths()
    ensures Example().PathsOk()
  {
    ExampleValid();
    ExampleApart();
  }

  lemma ExampleValid()
    ensures Example().PathsValid()
  {
    assert Join([], [100]) == [100] && Join([], [122]) == [122];
    assert Join([100], [115]) == [100, 47, 115] && Join([100], [116]) == [100, 47, 116];
    assert Join([100, 47, 115], [101]) == [100, 47, 115, 47, 101];
    LetterBelow([], 100);
    LetterBelow([], 122);
    LetterBelow([100], 115);
    LetterBelow([100], 116);
    LetterBelow([100, 47, 115], 101);
  }

  lemma BelowExactly(q: Text, p: Text)
    ensures Below(q, p) <==> |p| < |q| && q[..|p|] == p && q[|p|] == SLASH
  {
    if Below(q, p) {
      assert q[..|p|] == (p + [SLASH])[..|p|] == p;
    }
  }

  lemma ExampleApart()
    ensures Example().PathsPlaced()
  {
    var c := Example();
    assert c.sub.path[1..] == [47, 115] && c.other.path[1..] == [47, 116];
    assert [47, 115][1..] == [115] && [47, 116][1..] == [116];
    forall q | q in c.Paths()
      ensures (Below(q, c.sub.path) <==> q == c.file.path) && !Below(q, c.file.path) && !Below(q, c.spare.path)
    {
      BelowExactly(q, c.sub.path);
      BelowExactly(q, c.file.path);
      BelowExactly(q, c.spare.path);
      assert c.file.path[..3] == c.sub.path && (q != c.spare.path ==> q[..1][0] == 100);
    }
  }

  /** Indices whose strings are short enough to be in play. */
  ghost predicate Small(idx: Index) {
    IndexOk(idx) && forall p :: p in idx ==> Sized(idx[p]) && |p| + 2 < U64
  }

  lemma SmallWith(idx: Index, e: Entry)
    requires Small(idx) && ValidRemotePath(e.path) && Sized(e) && |e.path| + 2 < U64
    ensures Small(idx[e.path := e])
  {
    ValidIsClean(e.path);
  }

  lemma SmallEntry(c: Plot, e: Entry)
    requires c == Example() && c.PathsOk()
    requires e in {c.D(), c.S(), c.Z(), c.E(), c.F(), c.Q(), c.Y()}
    ensures ValidRemotePath(e.path) && Sized(e) && |e.path| + 2 < U64
  {
    assert e.path in c.Paths();
  }

  lemma PutAll(idx: Index, e: Entry, c: Plot)
    requires c == Example() && c.PathsOk() && Small(idx) && e in {c.D(), c.S(), c.Z(), c.E(), c.F(), c.Q(), c.Y()}
    ensures Small(idx[e.path := e])
  {
    SmallEntry(c, e);
    SmallWith(idx, e);
  }

  lemma ExampleSmallI(c: Plot)
    requires c == Example() && c.PathsOk()
    ensures Small(I1(c)) && Small(I2(c)) && Small(I4(c))
  {
    PutAll(map[], c.D(), c);
    PutAll(I1(c), c.S(), c);
    PutAll(I2(c), c.Z(), c);
    PutAll(I2(c)[c.spare.path := c.Z()], c.E(), c);
  }

  lemma ExampleSmallEnd(c: Plot)
    requires c == Example() && c.PathsOk() && Small(I1(c))
    ensures Small(I6(c)) && Small(I7(c))
  {
    PutAll(I1(c), c.Q(), c);
    assert I6(c) == I1(c)[c.other.path := c.Q()];
    PutAll(I6(c), c.E(), c);
  }

  lemma ExampleSmallJ(c: Plot)
    requires c == Example() && c.PathsOk() && Small(I2(c))
    ensures Small(J3(c)) && Small(J4(c)) && Small(J5(c)) && Small(J6(c))
  {
    PutAll(I2(c), c.F(), c);
    PutAll(I2(c)[c.sub.path := c.F()], c.Q(), c);
    PutAll(J3(c), c.Z(), c);
    PutAll(J4(c), c.E(), c);
    PutAll(J5(c), c.Y(), c);
  }

  /** The run exists, for every hash. */
  lemma PlotExists(h: Hasher)
    ensures PlotOk(h, AllText(), Example())
  {
    ExamplePaths();
    ExampleSmallI(Example());
    ExampleSmallEnd(Example());
    ExampleSmallJ(Example());
    InAll(h, Example());
  }

  lemma InAll(h: Hasher, c: Plot)
    requires Small(I1(c)) && Small(I2(c)) && Small(I4(c)) && Small(I6(c)) && Small(I7(c))
    requires Small(J3(c)) && Small(J4(c)) && Small(J5(c)) && Small(J6(c))
    ensures AllPlayable(h, AllText(), c)
  {
    PlayableInAll(h, map[]);
    PlayableInAll(h, I1(c));
    PlayableInAll(h, I2(c));
    PlayableInAll(h, I4(c));
    PlayableInAll(h, J3(c));
    PlayableInAll(h, J4(c));
    PlayableInAll(h, J5(c));
    PlayableInAll(h, J6(c));
    PlayableInAll(h, I6(c));
    PlayableInAll(h, I7(c));
  }
}
