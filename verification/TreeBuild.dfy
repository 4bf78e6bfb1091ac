/** src/tree.rs: the full derivation and the incremental update of a snapshot,
    proved against `Consistent` and against the exact set of nodes each leaves. */
module TreeBuild {
  import opened Bytes
  import opened Paths
  import opened Entries
  import opened Tree

  /** The entries a tree is built over: all of them, or the live ones. */
  function Included(entries: Index, keep: Entry -> bool): Index {
    map p | p in entries && keep(entries[p]) :: entries[p]
  }

  /** The filter of the state tree; that of the live tree is `Live`. */
  predicate Any(e: Entry) {
    true
  }

  function LivePart(entries: Index): Index {
    Included(entries, Live)
  }

  /** Some entry lies strictly below `k`. */
  ghost predicate Inhabited(idx: Index, k: Text) {
    exists p :: p in idx && k in Ancestors(p)
  }

  // ---------- hashing ----------

  lemma Regroup(a: Text, b: Text, c: Text)
    ensures (a + b) + c == a + (b + c)
  {
  }

  lemma FeedStep(r: Text, tag: Text, m: map<Text, Digest>, names: seq<Text>)
    requires names != [] && forall k :: k in names ==> k in m
    ensures (r + (Str(tag) + (Str(names[0]) + m[names[0]]))) + Items(tag, m, names[1..])
         == r + Items(tag, m, names)
  {
    var rest := Items(tag, m, names[1..]);
    Regroup(Str(names[0]), m[names[0]], rest);
    Regroup(Str(tag), Str(names[0]) + m[names[0]], rest);
    Regroup(r, Str(tag) + (Str(names[0]) + m[names[0]]), rest);
  }

  /** One of the two loops of `hash_node`: feed tagged items in name order. */
  method FeedItems(fed: Text, tag: Text, m: map<Text, Digest>) returns (r: Text)
    ensures r == fed + Items(tag, m, Sorted(m.Keys))
  {
    r := fed;
    var names := Sorted(m.Keys);
    ghost var whole := r + Items(tag, m, names);
    while names != []
      invariant forall k :: k in names ==> k in m
      invariant r + Items(tag, m, names) == whole
      decreases |names|
    {
      FeedStep(r, tag, m, names);
      r := r + (Str(tag) + (Str(names[0]) + m[names[0]]));
      names := names[1..];
    }
    assert r + [] == r;
  }

  /** `hash_node`: the prefix, then the entries, then the children. */
  method HashNode(h: Hasher, prefix: Text, entries: map<Text, Digest>, children: map<Text, Digest>)
    returns (d: Digest)
    ensures d == NodeHash(h, prefix, entries, children)
  {
    var head := Ascii("lil-node-v1") + Str(prefix);
    var withEntries := FeedItems(head, Ascii("entry"), entries);
    var fed := FeedItems(withEntries, Ascii("child"), children);
    ghost var es := Items(Ascii("entry"), entries, Sorted(entries.Keys));
    ghost var cs := Items(Ascii("child"), children, Sorted(children.Keys));
    Regroup(head, es, cs);
    Regroup(Ascii("lil-node-v1"), Str(prefix), es + cs);
    d := h(fed);
  }

  // ---------- grouping paths by parent ----------

  ghost predicate Groups(m: map<Text, set<Text>>, keys: set<Text>) {
    && (forall k :: k in m ==> m[k] == set c | c in keys && c != [] && Parent(c) == k)
    && (forall c {:trigger Parent(c)} :: c in keys && c != [] ==> Parent(c) in m)
  }

  /** The `by_parent` / `child_keys` / `children_of` index. */
  method GroupByParent(keys: set<Text>) returns (m: map<Text, set<Text>>)
    ensures Groups(m, keys)
  {
    m := map[];
    var todo := keys;
    while todo != {}
      invariant todo <= keys
      invariant Groups(m, keys - todo)
    {
      var c :| c in todo;
      ghost var done, m0 := keys - todo, m;
      assert keys - (todo - {c}) == done + {c};
      todo := todo - {c};
      if c != [] {
        var k := Parent(c);
        m := m[k := (if k in m then m[k] else {}) + {c}];
        GroupsStep(m0, done, c, m);
      } else {
        GroupsRoot(m0, done);
      }
    }
    assert keys - todo == keys;
  }

  lemma GroupsStep(m0: map<Text, set<Text>>, before: set<Text>, c: Text, m: map<Text, set<Text>>)
    requires Groups(m0, before) && c != []
    requires m == m0[Parent(c) := (if Parent(c) in m0 then m0[Parent(c)] else {}) + {c}]
    ensures Groups(m, before + {c})
  {
    forall k | k in m
      ensures m[k] == set x | x in before + {c} && x != [] && Parent(x) == k
    {
      var want := set x | x in before && x != [] && Parent(x) == k;
      if k in m0 { assert m0[k] == want; } else { assert want == {}; }
      assert (set x | x in before + {c} && x != [] && Parent(x) == k)
          == if Parent(c) == k then want + {c} else want;
    }
  }

  lemma GroupsRoot(m0: map<Text, set<Text>>, before: set<Text>)
    requires Groups(m0, before)
    ensures Groups(m0, before + {[]})
  {
    forall k | k in m0
      ensures m0[k] == set x | x in before + {[]} && x != [] && Parent(x) == k
    {
      assert (set x | x in before + {[]} && x != [] && Parent(x) == k)
          == set x | x in before && x != [] && Parent(x) == k;
    }
  }

  function Names(group: set<Text>): set<Text> {
    set c | c in group :: Base(c)
  }

  /** Looking a node up in the group index gives the names filed directly inside it. */
  lemma GroupNames(m: map<Text, set<Text>>, keys: set<Text>, k: Text)
    requires Groups(m, keys)
    ensures Names(if k in m then m[k] else {}) == ChildNames(keys, k)
  {
    if k in m {
      assert m[k] == set c | c in keys && c != [] && Parent(c) == k;
    } else {
      forall c | c in keys && c != [] ensures Parent(c) != k {}
      assert ChildNames(keys, k) == {};
    }
  }

  // ---------- frames ----------

  /** What belongs at `k` depends only on the nodes directly inside `k`. */
  lemma ChildrenFrame(a: map<Text, TreeNode>, b: map<Text, TreeNode>, k: Text)
    requires CleanKeys(a.Keys) && CleanKeys(b.Keys)
    requires forall c {:trigger Parent(c)} :: c != [] && Parent(c) == k ==>
      (c in a <==> c in b) && (c in a ==> a[c] == b[c])
    ensures ChildNames(a.Keys, k) == ChildNames(b.Keys, k)
    ensures DirectChildren(a, k) == DirectChildren(b, k)
  {
    forall n | n in ChildNames(a.Keys, k)
      ensures n in ChildNames(b.Keys, k)
      ensures Join(k, n) in a && Join(k, n) in b && a[Join(k, n)] == b[Join(k, n)]
    {
      ChildName(a.Keys, k, n);
    }
    forall n | n in ChildNames(b.Keys, k) ensures n in ChildNames(a.Keys, k) {
      ChildName(b.Keys, k, n);
    }
    assert ChildNames(a.Keys, k) == ChildNames(b.Keys, k);
  }

  /** Changing the node at `j` does not change what belongs at another node `k`
      unless `j` is directly inside `k`. */
  lemma NodeAtFrame(h: Hasher, idx: Index, a: map<Text, TreeNode>, b: map<Text, TreeNode>, j: Text, k: Text)
    requires CleanKeys(idx.Keys) && CleanKeys(a.Keys) && CleanKeys(b.Keys)
    requires forall c :: c != j ==> (c in a <==> c in b) && (c in a ==> a[c] == b[c])
    requires j == [] || Parent(j) != k
    ensures ChildNames(a.Keys, k) == ChildNames(b.Keys, k)
    ensures NodeAt(h, idx, a, k) == NodeAt(h, idx, b, k)
  {
    ChildrenFrame(a, b, k);
  }

  /** In ascending order a path never precedes its parent. */
  lemma ParentIsLater(order: seq<Text>, i: nat, j: nat)
    requires Ascending(order) && i < j < |order|
    ensures order[i] != [] ==> Parent(order[i]) != order[j]
  {
    if order[i] != [] && Parent(order[i]) == order[j] {
      PrefixLe(order[j], order[i]);
      LeAntisymmetric(order[i], order[j]);
    }
  }

  // ---------- full derivation ----------

  /** The nodes `derive_tree_with` makes: the root, every ancestor, every directory. */
  ghost predicate Canonical(idx: Index, k: Text) {
    k == [] || Inhabited(idx, k) || (k in idx && idx[k].kind == Dir)
  }

  ghost predicate CanonicalKeys(keys: set<Text>, idx: Index) {
    forall k :: k in keys <==> Canonical(idx, k)
  }

  lemma CanonicalClosed(keys: set<Text>, idx: Index)
    requires IndexOk(idx) && CanonicalKeys(keys, idx)
    ensures Closed(keys, idx)
  {
    assert Canonical(idx, []);
    forall k | k in keys ensures CleanOrRoot(k) && Parent(k) in keys {
      assert Canonical(idx, k);
      if k != [] && Inhabited(idx, k) {
        var p :| p in idx && k in Ancestors(p);
        AncestorsClean(p);
        AncestorsClosed(p, k);
        assert Canonical(idx, Parent(k));
      } else if k != [] {
        assert Parent(k) in Ancestors(k);
        assert Canonical(idx, Parent(k));
      }
    }
    forall p | p in idx ensures Parent(p) in keys {
      assert Parent(p) in Ancestors(p);
      assert Canonical(idx, Parent(p));
    }
  }

  /** `paths` has the nodes that the entry at `p` asks for. */
  ghost predicate Hosts(paths: set<Text>, idx: Index, p: Text)
    requires p in idx
  {
    (forall a :: a in Ancestors(p) ==> a in paths) && (idx[p].kind == Dir ==> p in paths)
  }

  ghost predicate AllHosted(paths: set<Text>, idx: Index, ps: set<Text>) {
    forall p {:trigger Hosts(paths, idx, p)} :: p in ps && p in idx ==> Hosts(paths, idx, p)
  }

  ghost predicate AllCanonical(paths: set<Text>, idx: Index) {
    forall k {:trigger Canonical(idx, k)} :: k in paths ==> Canonical(idx, k)
  }

  lemma HostStep(paths: set<Text>, idx: Index, ps: set<Text>, p: Text, more: set<Text>)
    requires p in idx && AllHosted(paths, idx, ps) && AllCanonical(paths, idx)
    requires forall a :: a in more <==> a in Ancestors(p) || (a == p && idx[p].kind == Dir)
    ensures AllHosted(paths + more, idx, ps + {p}) && AllCanonical(paths + more, idx)
  {
    forall q | q in ps + {p} && q in idx ensures Hosts(paths + more, idx, q) {
      if q in ps { assert Hosts(paths, idx, q); }
    }
    forall k | k in paths + more ensures Canonical(idx, k) {
      if k in paths { assert Canonical(idx, k); }
    }
  }

  /** The nodes one entry asks for. */
  function HostsOf(idx: Index, p: Text): (r: set<Text>)
    requires p in idx
    ensures forall a :: a in r <==> a in Ancestors(p) || (a == p && idx[p].kind == Dir)
  {
    var up := Ancestors(p);
    (set a | a in up) + (if idx[p].kind == Dir then {p} else {})
  }

  /** The first loop of `derive_tree_with`: which paths get a node. */
  method CanonicalPaths(idx: Index) returns (paths: set<Text>)
    requires IndexOk(idx)
    ensures CanonicalKeys(paths, idx)
  {
    paths := {[]};
    var todo := idx.Keys;
    assert Canonical(idx, []);
    while todo != {}
      invariant todo <= idx.Keys && [] in paths
      invariant AllCanonical(paths, idx)
      invariant AllHosted(paths, idx, idx.Keys - todo)
    {
      var p :| p in todo;
      var more := HostsOf(idx, p);
      HostStep(paths, idx, idx.Keys - todo, p, more);
      assert idx.Keys - (todo - {p}) == (idx.Keys - todo) + {p};
      paths := paths + more;
      todo := todo - {p};
    }
    assert idx.Keys - todo == idx.Keys;
    HostedIsCanonical(paths, idx);
  }

  lemma HostedIsCanonical(paths: set<Text>, idx: Index)
    requires [] in paths && AllCanonical(paths, idx) && AllHosted(paths, idx, idx.Keys)
    ensures CanonicalKeys(paths, idx)
  {
    forall k ensures k in paths <==> Canonical(idx, k) {
      if Canonical(idx, k) && k != [] {
        if Inhabited(idx, k) {
          var p :| p in idx && k in Ancestors(p);
          assert Hosts(paths, idx, p);
        } else {
          assert Hosts(paths, idx, k);
        }
      }
    }
  }

  ghost predicate AllNodesOk(h: Hasher, idx: Index, nodes: map<Text, TreeNode>) {
    && CleanKeys(idx.Keys) && CleanKeys(nodes.Keys)
    && forall k {:trigger NodeOk(h, idx, nodes, k)} :: k in nodes ==> NodeOk(h, idx, nodes, k)
  }

  /** The last loop of `derive_tree_with`: hash the nodes children first. */
  method HashBottomUp(h: Hasher, idx: Index, paths: set<Text>) returns (nodes: map<Text, TreeNode>)
    requires IndexOk(idx) && CleanKeys(paths)
    ensures nodes.Keys == paths && AllNodesOk(h, idx, nodes)
  {
    var byParent := GroupByParent(idx.Keys);
    var childrenOf := GroupByParent(paths);
    nodes := map[];
    var order := Sorted(paths);
    var i := |order|;
    while i > 0
      invariant 0 <= i <= |order|
      invariant forall k :: k in nodes <==> k in order[i..]
      invariant AllNodesOk(h, idx, nodes)
    {
      i := i - 1;
      var k := order[i];
      assert order[i..] == [k] + order[i + 1..];
      GroupNames(byParent, idx.Keys, k);
      GroupNames(childrenOf, paths, k);
      ChildrenAreDone(order, i, paths, nodes.Keys);
      NamesProper(paths, k);
      var node := MakeNode(h, idx, nodes, k, Names(if k in byParent then byParent[k] else {}),
                           Names(if k in childrenOf then childrenOf[k] else {}));
      DeriveStep(h, idx, order, i, nodes, nodes[k := node]);
      nodes := nodes[k := node];
    }
    assert order[0..] == order;
  }

  /** Collect the hashes of the entries called `names` directly inside `k`. */
  method CollectEntries(h: Hasher, idx: Index, k: Text, names: set<Text>) returns (m: map<Text, Digest>)
    requires CleanKeys(idx.Keys) && names == ChildNames(idx.Keys, k)
    ensures m.Keys == ChildNames(idx.Keys, k) && m == DirectEntries(h, idx, k)
  {
    forall n | n in names ensures Join(k, n) in idx { ChildName(idx.Keys, k, n); }
    m := map n | n in names :: EntryHash(h, idx[Join(k, n)]);
  }

  /** Collect the hashes of those children called `names` that have a node. */
  method CollectChildren(nodes: map<Text, TreeNode>, k: Text, names: set<Text>) returns (m: map<Text, Digest>)
    requires CleanKeys(nodes.Keys) && CleanOrRoot(k)
    requires forall n :: n in ChildNames(nodes.Keys, k) ==> n in names
    requires forall n :: n in names ==> n != [] && SLASH !in n
    ensures m.Keys == ChildNames(nodes.Keys, k) && m == DirectChildren(nodes, k)
  {
    var found := set n | n in names && Join(k, n) in nodes;
    FoundNames(nodes.Keys, k, names, found);
    m := map n | n in found :: nodes[Join(k, n)].hash;
  }

  lemma FoundNames(keys: set<Text>, k: Text, names: set<Text>, found: set<Text>)
    requires CleanKeys(keys) && CleanOrRoot(k)
    requires forall n :: n in ChildNames(keys, k) ==> n in names
    requires forall n :: n in names ==> n != [] && SLASH !in n
    requires found == set n | n in names && Join(k, n) in keys
    ensures found == ChildNames(keys, k)
  {
    forall n | n in found ensures n in ChildNames(keys, k) {
      SplitJoin(k, n);
    }
    forall n | n in ChildNames(keys, k) ensures n in found {
      ChildName(keys, k, n);
    }
  }

  /** Build the node at `k` from the names grouped under it. */
  method MakeNode(h: Hasher, idx: Index, nodes: map<Text, TreeNode>, k: Text, names: set<Text>, childNames: set<Text>)
    returns (node: TreeNode)
    requires CleanKeys(idx.Keys) && CleanKeys(nodes.Keys) && CleanOrRoot(k)
    requires names == ChildNames(idx.Keys, k)
    requires forall n :: n in ChildNames(nodes.Keys, k) ==> n in childNames
    requires forall n :: n in childNames ==> n != [] && SLASH !in n
    ensures node == NodeAt(h, idx, nodes, k)
    ensures node.entries.Keys == ChildNames(idx.Keys, k) && node.children.Keys == ChildNames(nodes.Keys, k)
  {
    var es := CollectEntries(h, idx, k, names);
    var cs := CollectChildren(nodes, k, childNames);
    var d := HashNode(h, DisplayPrefix(k), es, cs);
    node := TreeNode(DisplayPrefix(k), es, cs, d);
  }

  /** `derive_tree_with`. */
  method DeriveTree(h: Hasher, entries: Index, keep: Entry -> bool) returns (s: TreeSnapshot)
    requires IndexOk(entries)
    ensures Consistent(h, s, Included(entries, keep))
    ensures CanonicalKeys(s.nodes.Keys, Included(entries, keep))
  {
    var idx := Included(entries, keep);
    var paths := CanonicalPaths(idx);
    CanonicalClosed(paths, idx);
    var nodes := HashBottomUp(h, idx, paths);
    s := TreeSnapshot(nodes[[]].hash, nodes);
  }

  lemma DeriveStep(h: Hasher, idx: Index, order: seq<Text>, i: nat,
                   before: map<Text, TreeNode>, nodes: map<Text, TreeNode>)
    requires Ascending(order) && i < |order| && CleanOrRoot(order[i])
    requires forall k :: k in before <==> k in order[i + 1..]
    requires AllNodesOk(h, idx, before)
    requires nodes == before[order[i] := NodeAt(h, idx, before, order[i])]
    ensures AllNodesOk(h, idx, nodes)
  {
    NowOk(h, idx, before, nodes, order[i]);
    forall x | x in before && x != order[i] ensures NodeOk(h, idx, nodes, x) {
      var j :| i < j < |order| && order[j] == x;
      ParentIsLater(order, i, j);
      StillOk(h, idx, before, nodes, order[i], x);
    }
  }

  lemma NowOk(h: Hasher, idx: Index, a: map<Text, TreeNode>, b: map<Text, TreeNode>, k: Text)
    requires CleanKeys(idx.Keys) && CleanKeys(a.Keys) && CleanKeys(b.Keys)
    requires b == a[k := NodeAt(h, idx, a, k)]
    ensures NodeOk(h, idx, b, k)
    ensures ChildNames(a.Keys, k) == ChildNames(b.Keys, k)
  {
    assert k == [] || Parent(k) != k;
    NodeAtFrame(h, idx, a, b, k, k);
  }

  lemma NamesProper(keys: set<Text>, k: Text)
    requires CleanKeys(keys)
    ensures forall n :: n in ChildNames(keys, k) ==> n != [] && SLASH !in n
  {
    forall n | n in ChildNames(keys, k) ensures n != [] && SLASH !in n {
      ChildName(keys, k, n);
      ParentBase(Join(k, n));
    }
  }

  lemma StillOk(h: Hasher, idx: Index, a: map<Text, TreeNode>, b: map<Text, TreeNode>, j: Text, k: Text)
    requires CleanKeys(idx.Keys) && CleanKeys(a.Keys) && CleanKeys(b.Keys)
    requires forall c :: c != j ==> (c in a <==> c in b) && (c in a ==> a[c] == b[c])
    requires (j == [] || Parent(j) != k) && j != k && NodeOk(h, idx, a, k)
    ensures NodeOk(h, idx, b, k)
  {
    NodeAtFrame(h, idx, a, b, j, k);
  }

  /** When `order[i]` is reached in descending order, its children are already there. */
  lemma ChildrenAreDone(order: seq<Text>, i: nat, paths: set<Text>, done: set<Text>)
    requires i < |order| && order == Sorted(paths)
    requires forall k :: k in done <==> k in order[i + 1..]
    ensures ChildNames(done, order[i]) == ChildNames(paths, order[i])
  {
    forall c | c in paths && c != [] && Parent(c) == order[i] ensures c in done {
      var j :| 0 <= j < |order| && order[j] == c;
      if j < i { PrefixLe(order[i], c); LeAntisymmetric(order[i], c); }
    }
    forall c | c in done ensures c in paths {}
  }
}
