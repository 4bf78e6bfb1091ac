/** src/tree.rs: the Merkle tree over an index. This file holds the node and
    snapshot types, the bytes a node is hashed by, what it means for a snapshot
    to be consistent with an index, and the theorem that equal roots mean equal
    indices. TreeBuild.dfy holds the two algorithms. */
module Tree {
  import opened Bytes
  import opened Paths
  import opened Entries

  datatype TreeNode = TreeNode(
    prefix: Text,
    entries: map<Text, Digest>,
    children: map<Text, Digest>,
    hash: Digest)

  datatype TreeSnapshot = TreeSnapshot(rootHash: Digest, nodes: map<Text, TreeNode>)

  // ---------- what a node is hashed by ----------

  function Items(tag: Text, m: map<Text, Digest>, keys: seq<Text>): Text
    requires forall k :: k in keys ==> k in m
  {
    if keys == [] then []
    else Str(tag) + (Str(keys[0]) + (m[keys[0]] + Items(tag, m, keys[1..])))
  }

  function NodeBytes(prefix: Text, entries: map<Text, Digest>, children: map<Text, Digest>): Text {
    Ascii("lil-node-v1") +
    (Str(prefix) +
    (Items(Ascii("entry"), entries, Sorted(entries.Keys)) +
     Items(Ascii("child"), children, Sorted(children.Keys))))
  }

  function NodeHash(h: Hasher, prefix: Text, entries: map<Text, Digest>, children: map<Text, Digest>): Digest {
    h(NodeBytes(prefix, entries, children))
  }

  /** `tree_node_hash`: the hash a node should carry. */
  function HashOf(h: Hasher, n: TreeNode): Digest {
    NodeHash(h, n.prefix, n.entries, n.children)
  }

  predicate NodeSized(n: TreeNode) {
    && |n.prefix| < U64
    && (forall k :: k in n.entries ==> |k| < U64)
    && (forall k :: k in n.children ==> |k| < U64)
  }

  /** One tagged item can be read back off the front of any input. */
  lemma ItemPrefixFree(tag: Text, a: Text, d: Digest, x: Text, b: Text, e: Digest, y: Text)
    requires |tag| < U64 && |a| < U64 && |b| < U64
    requires Str(tag) + (Str(a) + (d + x)) == Str(tag) + (Str(b) + (e + y))
    ensures a == b && d == e && x == y
  {
    Cancel(Str(tag), Str(tag), Str(a) + (d + x), Str(b) + (e + y));
    StrPrefixFree(a, b, d + x, e + y);
    Cancel(d, e, x, y);
  }

  lemma TagsDiffer(x: Text, y: Text)
    ensures Str(Ascii("entry")) + x != Str(Ascii("child")) + y
  {
    var e, c := Ascii("entry"), Ascii("child");
    assert e[0] as int == 'e' as int && c[0] as int == 'c' as int;
    assert e != c;
    if Str(e) + x == Str(c) + y { StrPrefixFree(e, c, x, y); }
  }

  predicate SmallKeys(m: map<Text, Digest>, keys: seq<Text>) {
    forall k :: k in keys ==> k in m && |k| < U64
  }

  ghost predicate SameOn(m: map<Text, Digest>, n: map<Text, Digest>, keys: seq<Text>) {
    forall k :: k in keys ==> k in m && k in n && m[k] == n[k]
  }

  lemma SameOnCons(m: map<Text, Digest>, ks: seq<Text>, n: map<Text, Digest>, ls: seq<Text>)
    requires ks != [] && ls != [] && ks[0] == ls[0] && ks[1..] == ls[1..]
    requires ks[0] in m && ks[0] in n && m[ks[0]] == n[ks[0]] && SameOn(m, n, ks[1..])
    ensures ks == ls && SameOn(m, n, ks)
  {
    assert ks == [ks[0]] + ks[1..] && ls == [ls[0]] + ls[1..];
  }

  lemma {:induction false} ChildItemsInjective(m: map<Text, Digest>, ks: seq<Text>, n: map<Text, Digest>, ls: seq<Text>)
    requires SmallKeys(m, ks) && SmallKeys(n, ls)
    requires Items(Ascii("child"), m, ks) == Items(Ascii("child"), n, ls)
    ensures ks == ls && SameOn(m, n, ks)
  {
    if ks != [] && ls != [] {
      ItemPrefixFree(Ascii("child"), ks[0], m[ks[0]], Items(Ascii("child"), m, ks[1..]),
                     ls[0], n[ls[0]], Items(Ascii("child"), n, ls[1..]));
      ChildItemsInjective(m, ks[1..], n, ls[1..]);
      SameOnCons(m, ks, n, ls);
    }
  }

  /** The entry items end where the child items begin. */
  lemma {:induction false} EntryItemsInjective(
      m: map<Text, Digest>, ks: seq<Text>, mc: map<Text, Digest>, cs: seq<Text>,
      n: map<Text, Digest>, ls: seq<Text>, nc: map<Text, Digest>, ds: seq<Text>)
    requires SmallKeys(m, ks) && SmallKeys(n, ls) && SmallKeys(mc, cs) && SmallKeys(nc, ds)
    requires Items(Ascii("entry"), m, ks) + Items(Ascii("child"), mc, cs)
          == Items(Ascii("entry"), n, ls) + Items(Ascii("child"), nc, ds)
    ensures ks == ls && SameOn(m, n, ks)
    ensures cs == ds && SameOn(mc, nc, cs)
  {
    var u, v := Items(Ascii("child"), mc, cs), Items(Ascii("child"), nc, ds);
    if ks == [] && ls == [] {
      assert [] + u == u && [] + v == v;
      ChildItemsInjective(mc, cs, nc, ds);
    } else if ks != [] && ls != [] {
      var x, y := Items(Ascii("entry"), m, ks[1..]), Items(Ascii("entry"), n, ls[1..]);
      ItemThen(Ascii("entry"), ks[0], m[ks[0]], x, u);
      ItemThen(Ascii("entry"), ls[0], n[ls[0]], y, v);
      ItemPrefixFree(Ascii("entry"), ks[0], m[ks[0]], x + u, ls[0], n[ls[0]], y + v);
      EntryItemsInjective(m, ks[1..], mc, cs, n, ls[1..], nc, ds);
      SameOnCons(m, ks, n, ls);
    } else if ks != [] {
      EntryIsNotChild(m, ks, u, nc, ds);
    } else {
      EntryIsNotChild(n, ls, v, mc, cs);
    }
  }

  lemma ItemThen(tag: Text, a: Text, d: Digest, x: Text, u: Text)
    ensures (Str(tag) + (Str(a) + (d + x))) + u == Str(tag) + (Str(a) + (d + (x + u)))
  {
    assert (d + x) + u == d + (x + u);
    assert (Str(a) + (d + x)) + u == Str(a) + ((d + x) + u);
    assert (Str(tag) + (Str(a) + (d + x))) + u == Str(tag) + ((Str(a) + (d + x)) + u);
  }

  lemma EntryIsNotChild(m: map<Text, Digest>, ks: seq<Text>, u: Text, nc: map<Text, Digest>, ds: seq<Text>)
    requires SmallKeys(m, ks) && ks != [] && SmallKeys(nc, ds)
    ensures Items(Ascii("entry"), m, ks) + u != [] + Items(Ascii("child"), nc, ds)
  {
    var x := Items(Ascii("entry"), m, ks[1..]);
    ItemThen(Ascii("entry"), ks[0], m[ks[0]], x, u);
    if Items(Ascii("entry"), m, ks) + u == [] + Items(Ascii("child"), nc, ds) && ds != [] {
      TagsDiffer(Str(ks[0]) + (m[ks[0]] + (x + u)), Str(ds[0]) + (nc[ds[0]] + Items(Ascii("child"), nc, ds[1..])));
    }
  }

  lemma SameMaps(m: map<Text, Digest>, n: map<Text, Digest>)
    requires Sorted(m.Keys) == Sorted(n.Keys) && SameOn(m, n, Sorted(m.Keys))
    ensures m == n
  {
    forall k | k in m ensures k in n && m[k] == n[k] { assert k in Sorted(m.Keys); }
    forall k | k in n ensures k in m { assert k in Sorted(n.Keys); }
  }

  /** The node encoding is uniquely decodable. */
  lemma NodeBytesInjective(a: TreeNode, b: TreeNode)
    requires NodeSized(a) && NodeSized(b)
    requires NodeBytes(a.prefix, a.entries, a.children) == NodeBytes(b.prefix, b.entries, b.children)
    ensures a.prefix == b.prefix && a.entries == b.entries && a.children == b.children
  {
    var x := Items(Ascii("entry"), a.entries, Sorted(a.entries.Keys)) +
             Items(Ascii("child"), a.children, Sorted(a.children.Keys));
    var y := Items(Ascii("entry"), b.entries, Sorted(b.entries.Keys)) +
             Items(Ascii("child"), b.children, Sorted(b.children.Keys));
    Cancel(Ascii("lil-node-v1"), Ascii("lil-node-v1"), Str(a.prefix) + x, Str(b.prefix) + y);
    StrPrefixFree(a.prefix, b.prefix, x, y);
    EntryItemsInjective(a.entries, Sorted(a.entries.Keys), a.children, Sorted(a.children.Keys),
                        b.entries, Sorted(b.entries.Keys), b.children, Sorted(b.children.Keys));
    SameMaps(a.entries, b.entries);
    SameMaps(a.children, b.children);
  }

  /** No byte string is both an entry's and a node's encoding. */
  lemma EncodingsDisjoint(e: Entry, n: TreeNode)
    ensures EntryBytes(e) != NodeBytes(n.prefix, n.entries, n.children)
  {
    var tag := Ascii("lil-entry-v1");
    assert EntryBytes(e)[0] == Str(tag)[0] == BigEndian(12, 8)[0];
    assert BigEndian(0, 1) == [0];
    assert BigEndian(0, 2)[0] == 0;
    assert BigEndian(0, 3)[0] == 0;
    assert BigEndian(0, 4)[0] == 0;
    assert BigEndian(0, 5)[0] == 0;
    assert BigEndian(0, 6)[0] == 0;
    assert BigEndian(0, 7)[0] == 0;
    assert BigEndian(12, 8)[0] == 0;
    var t := Ascii("lil-node-v1");
    assert NodeBytes(n.prefix, n.entries, n.children)[0] == t[0];
    assert t[0] as int == 'l' as int;
  }

  // ---------- consistency with an index ----------

  /** Every entry is filed under its own, well-formed path. */
  ghost predicate IndexOk(idx: Index) {
    forall p :: p in idx ==> Clean(p) && idx[p].path == p
  }

  predicate CleanKeys(keys: set<Text>) {
    forall k :: k in keys ==> CleanOrRoot(k)
  }

  /** The last components of the members of `keys` directly inside `k`. */
  function ChildNames(keys: set<Text>, k: Text): (names: set<Text>) {
    set c | c in keys && c != [] && Parent(c) == k :: Base(c)
  }

  lemma ChildName(keys: set<Text>, k: Text, n: Text)
    requires CleanKeys(keys) && n in ChildNames(keys, k)
    ensures Join(k, n) in keys && Join(k, n) != [] && Parent(Join(k, n)) == k && Base(Join(k, n)) == n
  {
    var c :| c in keys && c != [] && Parent(c) == k && Base(c) == n;
    ParentBase(c);
  }

  function DirectEntries(h: Hasher, idx: Index, k: Text): (m: map<Text, Digest>)
    requires CleanKeys(idx.Keys)
  {
    map n | n in ChildNames(idx.Keys, k) :: ChildName(idx.Keys, k, n); EntryHash(h, idx[Join(k, n)])
  }

  function DirectChildren(nodes: map<Text, TreeNode>, k: Text): (m: map<Text, Digest>)
    requires CleanKeys(nodes.Keys)
  {
    map n | n in ChildNames(nodes.Keys, k) :: ChildName(nodes.Keys, k, n); nodes[Join(k, n)].hash
  }

  lemma DirectKeys(h: Hasher, idx: Index, nodes: map<Text, TreeNode>, k: Text)
    requires CleanKeys(idx.Keys) && CleanKeys(nodes.Keys)
    ensures DirectEntries(h, idx, k).Keys == ChildNames(idx.Keys, k)
    ensures DirectChildren(nodes, k).Keys == ChildNames(nodes.Keys, k)
  {
  }

  /** The node that belongs at `k`, given the index and the nodes below `k`. */
  function NodeAt(h: Hasher, idx: Index, nodes: map<Text, TreeNode>, k: Text): TreeNode
    requires CleanKeys(idx.Keys) && CleanKeys(nodes.Keys)
  {
    var es, cs := DirectEntries(h, idx, k), DirectChildren(nodes, k);
    TreeNode(DisplayPrefix(k), es, cs, NodeHash(h, DisplayPrefix(k), es, cs))
  }

  /** Parent-closed, and holding the parent of every entry. */
  ghost predicate Closed(keys: set<Text>, idx: Index) {
    && [] in keys && CleanKeys(keys)
    && (forall k {:trigger Parent(k)} :: k in keys ==> Parent(k) in keys)
    && (forall p {:trigger Parent(p)} :: p in idx ==> Parent(p) in keys)
  }

  /** The node stored at `k` has exactly the direct entries, children and hash it should. */
  ghost predicate NodeOk(h: Hasher, idx: Index, nodes: map<Text, TreeNode>, k: Text)
    requires CleanKeys(idx.Keys) && CleanKeys(nodes.Keys)
  {
    k in nodes && nodes[k] == NodeAt(h, idx, nodes, k)
  }

  /** The snapshot describes exactly `idx`: its nodes are closed under parents and
      each one is what the index and the nodes below it say. */
  ghost predicate Consistent(h: Hasher, s: TreeSnapshot, idx: Index) {
    && IndexOk(idx)
    && Closed(s.nodes.Keys, idx)
    && s.rootHash == s.nodes[[]].hash
    && forall k {:trigger NodeOk(h, idx, s.nodes, k)} :: k in s.nodes ==> NodeOk(h, idx, s.nodes, k)
  }

  /** Every ancestor of an entry has a node. */
  lemma {:induction false} AncestorsPresent(keys: set<Text>, idx: Index, p: Text, a: Text)
    requires Closed(keys, idx) && Parent(p) in keys && a in Ancestors(p)
    ensures a in keys
    decreases |p|
  {
    if Parent(p) != [] && a != Parent(p) {
      AncestorsPresent(keys, idx, Parent(p), a);
    }
  }

  // ---------- a consistent snapshot is determined by its keys ----------

  lemma LengthBound(keys: set<Text>) returns (m: nat)
    ensures forall k :: k in keys ==> |k| <= m
  {
    if keys == {} { m := 0; } else {
      var x :| x in keys;
      var r := LengthBound(keys - {x});
      m := if |x| > r then |x| else r;
      forall k | k in keys ensures |k| <= m { if k != x { assert k in keys - {x}; } }
    }
  }

  lemma {:induction false} SameNodes(h: Hasher, s: TreeSnapshot, t: TreeSnapshot, idx: Index, k: Text, m: nat)
    requires Consistent(h, s, idx) && Consistent(h, t, idx) && s.nodes.Keys == t.nodes.Keys
    requires k in s.nodes && forall c :: c in s.nodes ==> |c| <= m
    ensures s.nodes[k] == t.nodes[k]
    decreases m - |k|
  {
    var names := ChildNames(s.nodes.Keys, k);
    forall n | n in names
      ensures Join(k, n) in s.nodes && s.nodes[Join(k, n)].hash == t.nodes[Join(k, n)].hash
    {
      ChildName(s.nodes.Keys, k, n);
      SameNodes(h, s, t, idx, Join(k, n), m);
    }
    assert DirectChildren(s.nodes, k) == DirectChildren(t.nodes, k);
    assert NodeOk(h, idx, s.nodes, k) && NodeOk(h, idx, t.nodes, k);
  }

  /** A consistent snapshot is the only one with its key set. */
  lemma SnapshotUnique(h: Hasher, s: TreeSnapshot, t: TreeSnapshot, idx: Index)
    requires Consistent(h, s, idx) && Consistent(h, t, idx)
    ensures s.nodes.Keys == t.nodes.Keys <==> s == t
  {
    if s.nodes.Keys == t.nodes.Keys {
      var m := LengthBound(s.nodes.Keys);
      forall k | k in s.nodes ensures s.nodes[k] == t.nodes[k] { SameNodes(h, s, t, idx, k, m); }
      assert s.nodes == t.nodes;
    }
  }

  // ---------- equal hashes mean equal contents ----------

  /** No collision among the byte strings in `play`. */
  ghost predicate InjectiveOn(h: Hasher, play: iset<Text>) {
    forall a, b :: a in play && b in play && h(a) == h(b) ==> a == b
  }

  ghost predicate NodeInPlay(play: iset<Text>, n: TreeNode) {
    NodeBytes(n.prefix, n.entries, n.children) in play
  }

  ghost predicate EntryInPlay(play: iset<Text>, e: Entry) {
    Sized(e) && EntryBytes(e) in play
  }

  /** Every byte string hashed for this snapshot of this index is in `play`,
      and every length and clock fits the field it is encoded in. */
  ghost predicate InPlay(play: iset<Text>, s: TreeSnapshot, idx: Index) {
    && (forall k :: k in s.nodes ==> |k| + 2 < U64)
    && (forall k {:trigger NodeInPlay(play, s.nodes[k])} :: k in s.nodes ==> NodeInPlay(play, s.nodes[k]))
    && (forall p {:trigger EntryInPlay(play, idx[p])} :: p in idx ==> EntryInPlay(play, idx[p]))
  }

  lemma NodesSized(h: Hasher, play: iset<Text>, s: TreeSnapshot, idx: Index, k: Text)
    requires Consistent(h, s, idx) && InPlay(play, s, idx) && k in s.nodes
    ensures NodeSized(s.nodes[k])
  {
    assert NodeOk(h, idx, s.nodes, k);
    forall n | n in s.nodes[k].entries ensures |n| < U64 {
      ChildName(idx.Keys, k, n);
      assert EntryInPlay(play, idx[Join(k, n)]);
      assert |n| <= |Join(k, n)| == |idx[Join(k, n)].path|;
    }
    forall n | n in s.nodes[k].children ensures |n| < U64 {
      ChildName(s.nodes.Keys, k, n);
    }
  }

  /** Equal hashes, one on a consistent snapshot: the nodes are equal. */
  lemma SameHashSameNode(h: Hasher, play: iset<Text>, s: TreeSnapshot, idx: Index, k: Text, n: TreeNode)
    requires InjectiveOn(h, play)
    requires Consistent(h, s, idx) && InPlay(play, s, idx) && k in s.nodes
    requires NodeSized(n) && NodeInPlay(play, n)
    requires n.hash == HashOf(h, n) == s.nodes[k].hash
    ensures n == s.nodes[k]
  {
    NodesSized(h, play, s, idx, k);
    assert NodeOk(h, idx, s.nodes, k) && NodeInPlay(play, s.nodes[k]);
    NodeBytesInjective(n, s.nodes[k]);
  }

  ghost predicate Comparable(h: Hasher, play: iset<Text>, s: TreeSnapshot, idx: Index, t: TreeSnapshot, jdx: Index) {
    && InjectiveOn(h, play)
    && Consistent(h, s, idx) && InPlay(play, s, idx)
    && Consistent(h, t, jdx) && InPlay(play, t, jdx)
  }

  /** If two snapshots agree on the hash at `k`, they agree on every node below `k`. */
  lemma {:induction false} SubtreeNodes(h: Hasher, play: iset<Text>, s: TreeSnapshot, idx: Index,
                                        t: TreeSnapshot, jdx: Index, k: Text, q: Text)
    requires Comparable(h, play, s, idx, t, jdx)
    requires k in s.nodes && k in t.nodes && s.nodes[k].hash == t.nodes[k].hash
    requires q in s.nodes && AtOrUnder(q, k)
    ensures q in t.nodes && s.nodes[q] == t.nodes[q]
    decreases |q|
  {
    assert NodeOk(h, idx, s.nodes, q) && NodeInPlay(play, s.nodes[q]);
    if q == k {
      NodesSized(h, play, s, idx, k);
      SameHashSameNode(h, play, t, jdx, k, s.nodes[k]);
    } else {
      var u := Parent(q);
      SubtreeNodes(h, play, s, idx, t, jdx, k, u);
      ParentBase(q);
      assert NodeOk(h, idx, s.nodes, u) && NodeOk(h, jdx, t.nodes, u);
      assert Base(q) in ChildNames(s.nodes.Keys, u);
      assert Base(q) in t.nodes[u].children;
      ChildName(t.nodes.Keys, u, Base(q));
      assert t.nodes[u].children[Base(q)] == t.nodes[q].hash;
      assert s.nodes[u].children[Base(q)] == s.nodes[q].hash;
      NodesSized(h, play, s, idx, q);
      SameHashSameNode(h, play, t, jdx, q, s.nodes[q]);
    }
  }

  /** ... and on every entry filed below `k`. */
  lemma SubtreeEntries(h: Hasher, play: iset<Text>, s: TreeSnapshot, idx: Index,
                       t: TreeSnapshot, jdx: Index, k: Text, p: Text)
    requires Comparable(h, play, s, idx, t, jdx)
    requires k in s.nodes && k in t.nodes && s.nodes[k].hash == t.nodes[k].hash
    requires p in idx && AtOrUnder(Parent(p), k)
    ensures p in jdx && idx[p] == jdx[p]
  {
    SubtreeNodes(h, play, s, idx, t, jdx, k, Parent(p));
    ParentBase(p);
    assert NodeOk(h, idx, s.nodes, Parent(p));
    assert Base(p) in ChildNames(idx.Keys, Parent(p));
    SameEntry(h, play, s, idx, t, jdx, p);
  }

  /** Two nodes that list the same hash for an entry list the same entry. */
  lemma SameEntry(h: Hasher, play: iset<Text>, s: TreeSnapshot, idx: Index,
                  t: TreeSnapshot, jdx: Index, p: Text)
    requires Comparable(h, play, s, idx, t, jdx)
    requires p in idx && Parent(p) in t.nodes
    requires Base(p) in t.nodes[Parent(p)].entries
    requires t.nodes[Parent(p)].entries[Base(p)] == EntryHash(h, idx[p])
    ensures p in jdx && idx[p] == jdx[p]
  {
    ParentBase(p);
    assert NodeOk(h, jdx, t.nodes, Parent(p));
    ChildName(jdx.Keys, Parent(p), Base(p));
    assert t.nodes[Parent(p)].entries[Base(p)] == EntryHash(h, jdx[p]);
    assert EntryInPlay(play, idx[p]) && EntryInPlay(play, jdx[p]);
    EntryBytesInjective(idx[p], jdx[p]);
  }

  lemma EqualRootsInclude(h: Hasher, play: iset<Text>, s: TreeSnapshot, idx: Index, t: TreeSnapshot, jdx: Index)
    requires Comparable(h, play, s, idx, t, jdx)
    requires s.rootHash == t.rootHash
    ensures forall p :: p in idx ==> p in jdx && idx[p] == jdx[p]
    ensures forall k :: k in s.nodes ==> k in t.nodes && s.nodes[k] == t.nodes[k]
  {
    forall p | p in idx ensures p in jdx && idx[p] == jdx[p] {
      RootIsAbove(Parent(p));
      SubtreeEntries(h, play, s, idx, t, jdx, [], p);
    }
    forall k | k in s.nodes ensures k in t.nodes && s.nodes[k] == t.nodes[k] {
      RootIsAbove(k);
      SubtreeNodes(h, play, s, idx, t, jdx, [], k);
    }
  }

  /** Equal roots mean equal indices, and equal trees. */
  lemma EqualRootsEqualIndices(h: Hasher, play: iset<Text>, s: TreeSnapshot, idx: Index, t: TreeSnapshot, jdx: Index)
    requires Comparable(h, play, s, idx, t, jdx)
    requires s.rootHash == t.rootHash
    ensures idx == jdx && s == t
  {
    EqualRootsInclude(h, play, s, idx, t, jdx);
    EqualRootsInclude(h, play, t, jdx, s, idx);
    assert idx.Keys == jdx.Keys && s.nodes.Keys == t.nodes.Keys;
    assert s.nodes == t.nodes;
  }
}
