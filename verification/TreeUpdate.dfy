/** src/tree.rs: `update_tree_snapshot`, the incremental update that recomputes
    only dirty nodes, deepest first. It refines the full derivation: it always
    leaves a consistent snapshot, and exactly the derived one when no childless
    directory was dirty or missing. */
module TreeUpdate {
  import opened Bytes
  import opened Paths
  import opened Entries
  import opened Tree
  import opened TreeBuild

  // ---------- which nodes are dirty ----------

  ghost predicate OnPathOf(k: Text, p: Text) {
    k == p || k in Ancestors(p)
  }

  ghost predicate Touched(changed: seq<Text>, k: Text) {
    exists p :: p in changed && OnPathOf(k, p)
  }

  /** `d` has a node and lies below a changed path that has a node but no entry. */
  ghost predicate Uprooted(keys: set<Text>, idx: Index, changed: seq<Text>, d: Text) {
    d in keys && exists p :: p in changed && p in keys && p !in idx && Below(d, p)
  }

  ghost predicate Dirty(keys: set<Text>, idx: Index, changed: seq<Text>, k: Text) {
    Touched(changed, k) || exists d :: Uprooted(keys, idx, changed, d) && OnPathOf(k, d)
  }

  ghost predicate DirtySet(dirty: set<Text>, keys: set<Text>, idx: Index, changed: seq<Text>) {
    forall k :: k in dirty <==> Dirty(keys, idx, changed, k)
  }

  /** `changed` mentions every path at which the two indices differ. */
  ghost predicate Covers(changed: seq<Text>, before: Index, after: Index) {
    forall p :: p !in changed ==> (p in before <==> p in after) && (p in before ==> before[p] == after[p])
  }

  /** A path together with all its ancestors, up to the root. */
  function PathToRoot(p: Text): (r: set<Text>)
    ensures forall k :: k in r <==> OnPathOf(k, p)
  {
    var up := Ancestors(p);
    {p} + set a | a in up
  }

  method MarkAll(dirty0: set<Text>, ps: seq<Text>) returns (dirty: set<Text>)
    ensures forall k :: k in dirty <==> k in dirty0 || Touched(ps, k)
  {
    dirty := dirty0;
    for i := 0 to |ps|
      invariant forall k :: k in dirty <==> k in dirty0 || Touched(ps[..i], k)
    {
      assert ps[..i + 1] == ps[..i] + [ps[i]];
      forall k ensures Touched(ps[..i + 1], k) <==> Touched(ps[..i], k) || OnPathOf(k, ps[i]) {
        if Touched(ps[..i], k) { var p :| p in ps[..i] && OnPathOf(k, p); assert p in ps[..i + 1]; }
        if OnPathOf(k, ps[i]) { assert ps[i] in ps[..i + 1]; }
      }
      dirty := dirty + PathToRoot(ps[i]);
    }
    assert ps[..|ps|] == ps;
  }

  /** The first two loops of `update_tree_snapshot`. */
  method DirtyPaths(keys: set<Text>, idx: Index, changed: seq<Text>) returns (dirty: set<Text>)
    ensures DirtySet(dirty, keys, idx, changed)
  {
    dirty := MarkAll({}, changed);
    for i := 0 to |changed|
      invariant forall k :: k in dirty <==>
        Touched(changed, k) || exists d :: Uprooted(keys, idx, changed[..i], d) && OnPathOf(k, d)
    {
      var p := changed[i];
      assert changed[..i + 1] == changed[..i] + [p];
      var below := if p in keys && p !in idx then set d | d in keys && Below(d, p) else {};
      var order := Sorted(below);
      forall d
        ensures Uprooted(keys, idx, changed[..i + 1], d) <==> Uprooted(keys, idx, changed[..i], d) || d in order
      {
        if d in order { assert p in changed[..i + 1]; }
      }
      dirty := MarkAll(dirty, order);
    }
    assert changed[..|changed|] == changed;
  }

  lemma DirtyClosed(dirty: set<Text>, keys: set<Text>, idx: Index, changed: seq<Text>)
    requires DirtySet(dirty, keys, idx, changed)
    requires CleanKeys(keys) && forall p :: p in changed ==> Clean(p)
    ensures CleanKeys(dirty)
    ensures forall k {:trigger Parent(k)} :: k in dirty && k != [] ==> Parent(k) in dirty
  {
    forall k | k in dirty ensures CleanOrRoot(k) && (k != [] ==> Parent(k) in dirty) {
      assert Dirty(keys, idx, changed, k);
      if Touched(changed, k) {
        var p :| p in changed && OnPathOf(k, p);
        OnPathClosed(k, p);
        assert Touched(changed, Parent(k));
      } else {
        var d :| Uprooted(keys, idx, changed, d) && OnPathOf(k, d);
        assert d != [] && Clean(d);
        OnPathClosed(k, d);
      }
      assert Dirty(keys, idx, changed, Parent(k));
    }
  }

  lemma OnPathClosed(k: Text, p: Text)
    requires Clean(p) && OnPathOf(k, p)
    ensures CleanOrRoot(k) && OnPathOf(Parent(k), p)
  {
    AncestorsClean(p);
    if k == [] {
      assert Parent(k) == [] && [] in Ancestors(p);
    } else if k == p {
      assert Parent(k) in Ancestors(p);
    } else {
      AncestorsClosed(p, k);
    }
  }

  // ---------- the bottom-up pass ----------

  ghost predicate Worth(idx: Index, nodes: map<Text, TreeNode>, k: Text) {
    k == [] || ChildNames(idx.Keys, k) != {} || ChildNames(nodes.Keys, k) != {}
  }

  /** The node at `k` is what it should be, and is there exactly if it is not empty. */
  ghost predicate Settled(h: Hasher, idx: Index, nodes: map<Text, TreeNode>, k: Text)
    requires CleanKeys(idx.Keys) && CleanKeys(nodes.Keys)
  {
    if Worth(idx, nodes, k) then NodeOk(h, idx, nodes, k) else k !in nodes
  }

  ghost predicate AllSettled(h: Hasher, idx: Index, nodes: map<Text, TreeNode>, done: seq<Text>) {
    && CleanKeys(idx.Keys) && CleanKeys(nodes.Keys)
    && forall k {:trigger Settled(h, idx, nodes, k)} :: k in done ==> Settled(h, idx, nodes, k)
  }

  ghost predicate SameOutside(a: map<Text, TreeNode>, b: map<Text, TreeNode>, done: seq<Text>) {
    forall k :: k !in done ==> (k in a <==> k in b) && (k in a ==> a[k] == b[k])
  }

  lemma SettledFrame(h: Hasher, idx: Index, a: map<Text, TreeNode>, b: map<Text, TreeNode>, j: Text, k: Text)
    requires CleanKeys(idx.Keys) && CleanKeys(a.Keys) && CleanKeys(b.Keys)
    requires forall c :: c != j ==> (c in a <==> c in b) && (c in a ==> a[c] == b[c])
    requires (j == [] || Parent(j) != k) && j != k && Settled(h, idx, a, k)
    ensures Settled(h, idx, b, k)
  {
    NodeAtFrame(h, idx, a, b, j, k);
  }

  lemma SettledHere(h: Hasher, idx: Index, a: map<Text, TreeNode>, b: map<Text, TreeNode>, k: Text)
    requires CleanKeys(idx.Keys) && CleanKeys(a.Keys) && CleanKeys(b.Keys)
    requires b == if Worth(idx, a, k) then a[k := NodeAt(h, idx, a, k)] else a - {k}
    ensures Settled(h, idx, b, k)
  {
    if Worth(idx, a, k) { NowOk(h, idx, a, b, k); } else { ChildrenFrame(a, b, k); }
  }

  lemma SettleStep(h: Hasher, idx: Index, order: seq<Text>, i: nat, a: map<Text, TreeNode>, b: map<Text, TreeNode>)
    requires Ascending(order) && i < |order| && CleanOrRoot(order[i])
    requires AllSettled(h, idx, a, order[i + 1..])
    requires b == if Worth(idx, a, order[i]) then a[order[i] := NodeAt(h, idx, a, order[i])] else a - {order[i]}
    ensures AllSettled(h, idx, b, order[i..])
  {
    var k := order[i];
    assert CleanKeys(b.Keys);
    SettledHere(h, idx, a, b, k);
    forall x | x in order[i..] && x != k ensures Settled(h, idx, b, x) {
      var j :| i < j < |order| && order[j] == x;
      assert x == order[i + 1..][j - i - 1];
      ParentIsLater(order, i, j);
      SettledFrame(h, idx, a, b, k, x);
    }
  }

  lemma WorthKeys(idx: Index, nodes: map<Text, TreeNode>, k: Text, node: TreeNode)
    requires node.entries.Keys == ChildNames(idx.Keys, k) && node.children.Keys == ChildNames(nodes.Keys, k)
    ensures Worth(idx, nodes, k) <==> k == [] || node.entries != map[] || node.children != map[]
  {
    assert node.entries == map[] <==> node.entries.Keys == {};
    assert node.children == map[] <==> node.children.Keys == {};
  }

  /** The last loop of `update_tree_snapshot`: dirty nodes in descending order. */
  method RecomputeDirty(h: Hasher, idx: Index, nodes0: map<Text, TreeNode>, dirty: set<Text>)
    returns (nodes: map<Text, TreeNode>)
    requires IndexOk(idx) && CleanKeys(nodes0.Keys) && CleanKeys(dirty)
    ensures AllSettled(h, idx, nodes, Sorted(dirty))
    ensures SameOutside(nodes0, nodes, Sorted(dirty))
  {
    var byParent := GroupByParent(idx.Keys);
    var childKeys := GroupByParent(nodes0.Keys + dirty);
    nodes := nodes0;
    var order := Sorted(dirty);
    var i := |order|;
    while i > 0
      invariant 0 <= i <= |order|
      invariant nodes.Keys <= nodes0.Keys + dirty
      invariant AllSettled(h, idx, nodes, order[i..])
      invariant SameOutside(nodes0, nodes, order[i..])
    {
      i := i - 1;
      var k := order[i];
      var node := DirtyNode(h, idx, nodes, k, nodes0.Keys + dirty, byParent, childKeys);
      WorthKeys(idx, nodes, k, node);
      ghost var before := nodes;
      if k == [] || node.entries != map[] || node.children != map[] {
        nodes := nodes[k := node];
      } else {
        nodes := nodes - {k};
      }
      SettleStep(h, idx, order, i, before, nodes);
      OutsideStep(nodes0, before, nodes, order, i);
    }
    assert order[0..] == order;
  }

  lemma OutsideStep(nodes0: map<Text, TreeNode>, a: map<Text, TreeNode>, b: map<Text, TreeNode>, order: seq<Text>,
                    i: nat)
    requires i < |order| && SameOutside(nodes0, a, order[i + 1..]) && SameOutside(a, b, [order[i]])
    ensures SameOutside(nodes0, b, order[i..])
  {
    assert order[i..] == [order[i]] + order[i + 1..];
  }

  /** Look the group indices up and build the node at `k`. */
  method DirtyNode(h: Hasher, idx: Index, nodes: map<Text, TreeNode>, k: Text, all: set<Text>,
                   byParent: map<Text, set<Text>>, childKeys: map<Text, set<Text>>)
    returns (node: TreeNode)
    requires CleanKeys(idx.Keys) && CleanKeys(all) && nodes.Keys <= all && CleanOrRoot(k)
    requires Groups(byParent, idx.Keys) && Groups(childKeys, all)
    ensures node == NodeAt(h, idx, nodes, k)
    ensures node.entries.Keys == ChildNames(idx.Keys, k) && node.children.Keys == ChildNames(nodes.Keys, k)
  {
    GroupNames(byParent, idx.Keys, k);
    GroupNames(childKeys, all, k);
    NamesCover(all, nodes.Keys, k);
    node := MakeNode(h, idx, nodes, k, Names(if k in byParent then byParent[k] else {}),
                     Names(if k in childKeys then childKeys[k] else {}));
  }

  lemma NamesCover(all: set<Text>, keys: set<Text>, k: Text)
    requires CleanKeys(all) && keys <= all
    ensures forall n :: n in ChildNames(keys, k) ==> n in ChildNames(all, k)
    ensures forall n :: n in ChildNames(all, k) ==> n != [] && SLASH !in n
  {
    NamesProper(all, k);
  }

  // ---------- what is left behind ----------

  /** What a tree that described `shown` describes after an update: below dirty nodes the
      entries of the index, elsewhere what was shown before. */
  ghost function Mixed(keys: set<Text>, shown: Index, idx: Index, changed: seq<Text>): Index {
    map p | p in shown.Keys + idx.Keys && p in Source(keys, shown, idx, changed, Parent(p)) ::
      Source(keys, shown, idx, changed, Parent(p))[p]
  }

  ghost function Source(keys: set<Text>, shown: Index, idx: Index, changed: seq<Text>, k: Text): Index {
    if Dirty(keys, idx, changed, k) then idx else shown
  }

  lemma MixedAt(keys: set<Text>, shown: Index, idx: Index, changed: seq<Text>, p: Text)
    ensures SameAt(Mixed(keys, shown, idx, changed), Source(keys, shown, idx, changed, Parent(p)), p)
  {
  }

  lemma MixedOk(keys: set<Text>, shown: Index, idx: Index, changed: seq<Text>)
    requires IndexOk(shown) && IndexOk(idx)
    ensures IndexOk(Mixed(keys, shown, idx, changed))
  {
  }

  /** If the changed paths cover every difference, the tree shows the index. */
  lemma MixedCovered(keys: set<Text>, shown: Index, idx: Index, changed: seq<Text>)
    requires Covers(changed, shown, idx)
    ensures Mixed(keys, shown, idx, changed) == idx
  {
    var m := Mixed(keys, shown, idx, changed);
    forall p ensures (p in m <==> p in idx) && (p in m ==> m[p] == idx[p]) {
      MixedAt(keys, shown, idx, changed, p);
      ChangedTouched(keys, idx, changed, p);
    }
  }

  lemma ChangedTouched(keys: set<Text>, idx: Index, changed: seq<Text>, p: Text)
    ensures p in changed ==> Dirty(keys, idx, changed, p) && Dirty(keys, idx, changed, Parent(p))
  {
    if p in changed { assert OnPathOf(p, p) && OnPathOf(Parent(p), p); }
  }

  /** The result is consistent with the mixed index. */
  lemma UpdateConsistent(h: Hasher, s: TreeSnapshot, shown: Index, idx: Index, changed: seq<Text>,
                         dirty: set<Text>, nodes: map<Text, TreeNode>)
    requires Consistent(h, s, shown) && IndexOk(idx)
    requires DirtySet(dirty, s.nodes.Keys, idx, changed) && CleanKeys(dirty)
    requires forall k {:trigger Parent(k)} :: k in dirty && k != [] ==> Parent(k) in dirty
    requires AllSettled(h, idx, nodes, Sorted(dirty)) && SameOutside(s.nodes, nodes, Sorted(dirty))
    ensures [] in nodes
    ensures Consistent(h, TreeSnapshot(nodes[[]].hash, nodes), Mixed(s.nodes.Keys, shown, idx, changed))
  {
    var mixed := Mixed(s.nodes.Keys, shown, idx, changed);
    MixedOk(s.nodes.Keys, shown, idx, changed);
    assert [] in nodes by { if [] in dirty { assert Settled(h, idx, nodes, []); } }
    forall k | k in nodes ensures Parent(k) in nodes {
      if k != [] {
        HasChild(nodes.Keys, k);
        if Parent(k) in dirty { assert Settled(h, idx, nodes, Parent(k)); }
      }
    }
    forall p | p in mixed ensures Parent(p) in nodes {
      if Parent(p) in dirty {
        HasChild(idx.Keys, p);
        assert Settled(h, idx, nodes, Parent(p));
      } else {
        assert p in shown && Parent(p) in s.nodes && Parent(p) !in Sorted(dirty);
      }
    }
    forall k | k in nodes ensures NodeOk(h, mixed, nodes, k) {
      MixedEntries(h, s.nodes.Keys, shown, idx, changed, k);
      if k in dirty {
        assert Settled(h, idx, nodes, k);
        DirtyNodeOk(h, s.nodes.Keys, shown, idx, changed, nodes, k);
      } else {
        CleanNode(h, s, shown, idx, changed, dirty, nodes, k);
      }
    }
  }

  lemma DirtyNodeOk(h: Hasher, keys: set<Text>, shown: Index, idx: Index, changed: seq<Text>,
                    nodes: map<Text, TreeNode>, k: Text)
    requires IndexOk(shown) && IndexOk(idx) && CleanKeys(nodes.Keys) && Dirty(keys, idx, changed, k)
    requires k in nodes && Settled(h, idx, nodes, k)
    ensures IndexOk(Mixed(keys, shown, idx, changed)) && NodeOk(h, Mixed(keys, shown, idx, changed), nodes, k)
  {
    MixedOk(keys, shown, idx, changed);
    MixedEntries(h, keys, shown, idx, changed, k);
  }

  lemma HasChild(keys: set<Text>, c: Text)
    requires c in keys && c != []
    ensures ChildNames(keys, Parent(c)) != {}
  {
    assert Base(c) in ChildNames(keys, Parent(c));
  }

  lemma SameDirect(h: Hasher, a: Index, b: Index, k: Text)
    requires CleanKeys(a.Keys) && CleanKeys(b.Keys)
    requires forall p {:trigger SameAt(a, b, p)} :: p != [] && Parent(p) == k ==> SameAt(a, b, p)
    ensures DirectEntries(h, a, k) == DirectEntries(h, b, k)
  {
    forall n | n in ChildNames(a.Keys, k)
      ensures n in ChildNames(b.Keys, k) && Join(k, n) in a && Join(k, n) in b && a[Join(k, n)] == b[Join(k, n)]
    {
      ChildName(a.Keys, k, n);
      assert SameAt(a, b, Join(k, n));
    }
    forall n | n in ChildNames(b.Keys, k) ensures n in ChildNames(a.Keys, k) {
      ChildName(b.Keys, k, n);
      assert SameAt(a, b, Join(k, n));
    }
    assert ChildNames(a.Keys, k) == ChildNames(b.Keys, k);
  }

  /** A dirty node gets its direct entries from the index, any other keeps those it had, */
  lemma MixedEntries(h: Hasher, keys: set<Text>, shown: Index, idx: Index, changed: seq<Text>, k: Text)
    requires IndexOk(shown) && IndexOk(idx)
    ensures IndexOk(Mixed(keys, shown, idx, changed))
    ensures DirectEntries(h, Mixed(keys, shown, idx, changed), k) ==
      DirectEntries(h, Source(keys, shown, idx, changed, k), k)
  {
    MixedOk(keys, shown, idx, changed);
    forall p | p != [] && Parent(p) == k
      ensures SameAt(Mixed(keys, shown, idx, changed), Source(keys, shown, idx, changed, k), p)
    {
      MixedAt(keys, shown, idx, changed, p);
    }
    SameDirect(h, Mixed(keys, shown, idx, changed), Source(keys, shown, idx, changed, k), k);
  }

  /** ... and the same children. */
  lemma CleanChildren(nodes0: map<Text, TreeNode>, dirty: set<Text>, nodes: map<Text, TreeNode>, k: Text)
    requires CleanKeys(nodes0.Keys) && CleanKeys(nodes.Keys)
    requires SameOutside(nodes0, nodes, Sorted(dirty)) && k !in dirty
    requires forall k {:trigger Parent(k)} :: k in dirty && k != [] ==> Parent(k) in dirty
    ensures DirectChildren(nodes0, k) == DirectChildren(nodes, k)
  {
    forall c {:trigger Parent(c)} | c != [] && Parent(c) == k
      ensures (c in nodes0 <==> c in nodes) && (c in nodes0 ==> nodes0[c] == nodes[c])
    {
      assert c !in Sorted(dirty);
    }
    ChildrenFrame(nodes0, nodes, k);
  }

  lemma CleanNode(h: Hasher, s: TreeSnapshot, shown: Index, idx: Index, changed: seq<Text>,
                  dirty: set<Text>, nodes: map<Text, TreeNode>, k: Text)
    requires Consistent(h, s, shown) && IndexOk(idx)
    requires DirtySet(dirty, s.nodes.Keys, idx, changed) && CleanKeys(nodes.Keys)
    requires forall k {:trigger Parent(k)} :: k in dirty && k != [] ==> Parent(k) in dirty
    requires SameOutside(s.nodes, nodes, Sorted(dirty))
    requires k in nodes && k !in dirty
    ensures IndexOk(Mixed(s.nodes.Keys, shown, idx, changed))
    ensures NodeOk(h, Mixed(s.nodes.Keys, shown, idx, changed), nodes, k)
  {
    MixedEntries(h, s.nodes.Keys, shown, idx, changed, k);
    CleanChildren(s.nodes, dirty, nodes, k);
    assert NodeOk(h, shown, s.nodes, k);
  }

  // ---------- exactly which nodes the update leaves ----------

  /** Whether `k` has a node after the update. */
  ghost predicate Survives(keys: set<Text>, idx: Index, changed: seq<Text>, k: Text) {
    if Dirty(keys, idx, changed, k)
    then k == [] || Inhabited(idx, k) || Propped(keys, idx, changed, k)
    else k in keys
  }

  /** A node that was left alone lies below `k`. */
  ghost predicate Propped(keys: set<Text>, idx: Index, changed: seq<Text>, k: Text) {
    exists c :: c in keys && !Dirty(keys, idx, changed, c) && k in Ancestors(c)
  }

  /** The dirty nodes are what the index calls for, the others are as they were. */
  ghost predicate Refreshed(h: Hasher, before: map<Text, TreeNode>, idx: Index, changed: seq<Text>,
                            after: map<Text, TreeNode>)
    requires IndexOk(idx) && CleanKeys(after.Keys)
  {
    && (forall k {:trigger Settled(h, idx, after, k)} ::
          Dirty(before.Keys, idx, changed, k) ==> Settled(h, idx, after, k))
    && (forall k :: !Dirty(before.Keys, idx, changed, k) ==>
          (k in after <==> k in before) && (k in before ==> after[k] == before[k]))
  }

  /** `r` is the update of `s`, which described `shown`: it describes that index, brought up to
      date below the dirty nodes, and its new nodes are on the way to changed paths. */
  ghost predicate MixedTree(h: Hasher, s: TreeSnapshot, shown: Index, idx: Index, changed: seq<Text>, r: TreeSnapshot) {
    && Consistent(h, r, Mixed(s.nodes.Keys, shown, idx, changed))
    && forall k :: k in r.nodes ==> k in s.nodes || Touched(changed, k)
  }

  /** Without changes it is what it was. */
  lemma MixedNothing(h: Hasher, s: TreeSnapshot, shown: Index, idx: Index)
    requires Consistent(h, s, shown)
    ensures MixedTree(h, s, shown, idx, [], s)
  {
    var m := Mixed(s.nodes.Keys, shown, idx, []);
    forall p ensures SameAt(m, shown, p) {
      MixedAt(s.nodes.Keys, shown, idx, [], p);
      assert !Dirty(s.nodes.Keys, idx, [], Parent(p));
    }
    assert forall p :: p in m <==> SameAt(m, shown, p) && p in shown;
    assert m == shown;
  }

  /** `update_tree_snapshot`, whatever snapshot it starts from. If the changed paths cover every
      difference from the index that one described, the result describes the new index. */
  method UpdateTreeSnapshot(h: Hasher, s: TreeSnapshot, entries: Index, changed: seq<Text>, keep: Entry -> bool)
    returns (r: TreeSnapshot)
    requires CleanKeys(s.nodes.Keys) && IndexOk(entries)
    requires forall p :: p in changed ==> Clean(p)
    ensures CleanKeys(r.nodes.Keys) && Refreshed(h, s.nodes, Included(entries, keep), changed, r.nodes)
    ensures forall shown :: Consistent(h, s, shown) ==> MixedTree(h, s, shown, Included(entries, keep), changed, r)
    ensures forall shown :: Consistent(h, s, shown) && Covers(changed, shown, Included(entries, keep)) ==>
      && Consistent(h, r, Included(entries, keep))
      && forall k :: k in r.nodes <==> Survives(s.nodes.Keys, Included(entries, keep), changed, k)
  {
    var idx := Included(entries, keep);
    var dirty := DirtyPaths(s.nodes.Keys, idx, changed);
    DirtyClosed(dirty, s.nodes.Keys, idx, changed);
    var nodes := RecomputeDirty(h, idx, s.nodes, dirty);
    r := TreeSnapshot(if [] in nodes then nodes[[]].hash else seq(32, _ => 0), nodes);
    DirtyRefreshed(h, s.nodes, idx, changed, dirty, nodes);
    forall shown | Consistent(h, s, shown) ensures MixedTree(h, s, shown, idx, changed, r) {
      UpdateConsistent(h, s, shown, idx, changed, dirty, nodes);
      OnlyTouched(h, s, shown, idx, changed, dirty, nodes);
    }
    forall shown | Consistent(h, s, shown) && Covers(changed, shown, idx)
      ensures Consistent(h, r, idx) && forall k :: k in r.nodes <==> Survives(s.nodes.Keys, idx, changed, k)
    {
      MixedCovered(s.nodes.Keys, shown, idx, changed);
      KeysSurvive(h, s.nodes, idx, changed, dirty, r);
    }
  }

  /** New nodes are made on the way to changed paths only. */
  lemma OnlyTouched(h: Hasher, s: TreeSnapshot, shown: Index, idx: Index, changed: seq<Text>, dirty: set<Text>,
                    nodes: map<Text, TreeNode>)
    requires Consistent(h, s, shown) && DirtySet(dirty, s.nodes.Keys, idx, changed)
    requires SameOutside(s.nodes, nodes, Sorted(dirty))
    ensures forall k :: k in nodes ==> k in s.nodes || Touched(changed, k)
  {
    forall k | k in nodes ensures k in s.nodes || Touched(changed, k) {
      if k !in dirty {
        assert k !in Sorted(dirty);
      } else if !Touched(changed, k) {
        assert Dirty(s.nodes.Keys, idx, changed, k);
        var d :| Uprooted(s.nodes.Keys, idx, changed, d) && OnPathOf(k, d);
        if k != d { AncestorsPresent(s.nodes.Keys, shown, d, k); }
      }
    }
  }

  lemma DirtyRefreshed(h: Hasher, before: map<Text, TreeNode>, idx: Index, changed: seq<Text>, dirty: set<Text>,
                       nodes: map<Text, TreeNode>)
    requires IndexOk(idx) && CleanKeys(nodes.Keys) && DirtySet(dirty, before.Keys, idx, changed)
    requires AllSettled(h, idx, nodes, Sorted(dirty)) && SameOutside(before, nodes, Sorted(dirty))
    ensures Refreshed(h, before, idx, changed, nodes)
  {
    forall k | Dirty(before.Keys, idx, changed, k) ensures Settled(h, idx, nodes, k) {
      assert k in Sorted(dirty);
    }
  }

  lemma KeysSurvive(h: Hasher, nodes0: map<Text, TreeNode>, idx: Index, changed: seq<Text>, dirty: set<Text>,
                    r: TreeSnapshot)
    requires DirtySet(dirty, nodes0.Keys, idx, changed) && Consistent(h, r, idx)
    requires AllSettled(h, idx, r.nodes, Sorted(dirty)) && SameOutside(nodes0, r.nodes, Sorted(dirty))
    ensures forall k :: k in r.nodes <==> Survives(nodes0.Keys, idx, changed, k)
  {
    var m := LengthBound(r.nodes.Keys);
    forall k ensures k in r.nodes <==> Survives(nodes0.Keys, idx, changed, k) {
      if k !in dirty {
        assert k !in Sorted(dirty);
      } else {
        if k in r.nodes { OnlySurvivors(h, nodes0, idx, changed, dirty, r, k, m); }
        if k != [] && Inhabited(idx, k) {
          var p :| p in idx && k in Ancestors(p);
          AncestorsPresent(r.nodes.Keys, idx, p, k);
        }
        if k != [] && Propped(nodes0.Keys, idx, changed, k) {
          var c :| c in nodes0.Keys && !Dirty(nodes0.Keys, idx, changed, c) && k in Ancestors(c);
          assert c !in Sorted(dirty);
          AncestorsPresent(r.nodes.Keys, idx, c, k);
        }
      }
    }
  }

  lemma {:induction false} OnlySurvivors(h: Hasher, nodes0: map<Text, TreeNode>, idx: Index, changed: seq<Text>,
                                         dirty: set<Text>, r: TreeSnapshot, k: Text, m: nat)
    requires DirtySet(dirty, nodes0.Keys, idx, changed) && Consistent(h, r, idx)
    requires AllSettled(h, idx, r.nodes, Sorted(dirty)) && SameOutside(nodes0, r.nodes, Sorted(dirty))
    requires k in r.nodes && k in dirty && forall c :: c in r.nodes ==> |c| <= m
    ensures k == [] || Inhabited(idx, k) || Propped(nodes0.Keys, idx, changed, k)
    decreases m - |k|
  {
    assert Settled(h, idx, r.nodes, k);
    if k != [] {
      if ChildNames(idx.Keys, k) != {} {
        var n :| n in ChildNames(idx.Keys, k);
        ChildName(idx.Keys, k, n);
        assert Parent(Join(k, n)) in Ancestors(Join(k, n));
      } else {
        var n :| n in ChildNames(r.nodes.Keys, k);
        ChildName(r.nodes.Keys, k, n);
        var c := Join(k, n);
        assert Parent(c) in Ancestors(c);
        if c in dirty {
          OnlySurvivors(h, nodes0, idx, changed, dirty, r, c, m);
          AboveToo(nodes0.Keys, idx, changed, c);
        } else {
          assert c !in Sorted(dirty);
          assert Propped(nodes0.Keys, idx, changed, k);
        }
      }
    }
  }

  /** What is below a node is below its parent. */
  lemma AboveToo(keys: set<Text>, idx: Index, changed: seq<Text>, c: Text)
    requires c != [] && (Inhabited(idx, c) || Propped(keys, idx, changed, c))
    ensures Inhabited(idx, Parent(c)) || Propped(keys, idx, changed, Parent(c))
  {
    if Inhabited(idx, c) {
      var p :| p in idx && c in Ancestors(p);
      AncestorsClosed(p, c);
    } else {
      var d :| d in keys && !Dirty(keys, idx, changed, d) && c in Ancestors(d);
      AncestorsClosed(d, c);
    }
  }

  // ---------- the update against the full derivation ----------

  /** No node beyond those a full derivation would make. */
  ghost predicate Tight(keys: set<Text>, idx: Index) {
    forall k {:trigger Canonical(idx, k)} :: k in keys ==> Canonical(idx, k)
  }

  ghost predicate ChildlessDir(idx: Index, d: Text) {
    d in idx && idx[d].kind == Dir && !Inhabited(idx, d)
  }

  lemma CleanStaysCanonical(keys: set<Text>, idx0: Index, idx: Index, changed: seq<Text>, k: Text)
    requires Tight(keys, idx0) && Covers(changed, idx0, idx)
    requires k in keys && !Dirty(keys, idx, changed, k)
    ensures Canonical(idx, k)
  {
    assert Canonical(idx0, k);
    if k != [] && Inhabited(idx0, k) {
      var p :| p in idx0 && k in Ancestors(p);
      assert p in changed && OnPathOf(k, p) ==> Touched(changed, k);
    }
    assert k in changed && OnPathOf(k, k) ==> Touched(changed, k);
  }

  /** The update never leaves a node a full derivation would not make. */
  lemma UpdateTight(keys: set<Text>, idx0: Index, idx: Index, changed: seq<Text>, k: Text)
    requires Tight(keys, idx0) && Covers(changed, idx0, idx)
    requires Survives(keys, idx, changed, k)
    ensures Canonical(idx, k)
  {
    if !Dirty(keys, idx, changed, k) {
      CleanStaysCanonical(keys, idx0, idx, changed, k);
    } else if k != [] && !Inhabited(idx, k) {
      var c :| c in keys && !Dirty(keys, idx, changed, c) && k in Ancestors(c);
      CleanStaysCanonical(keys, idx0, idx, changed, c);
      assert Ancestors([]) == [[]];
      if c != [] && Inhabited(idx, c) {
        var p :| p in idx && c in Ancestors(p);
        AncestorsTransitive(p, c, k);
      }
    }
  }

  lemma {:induction false} AncestorsTransitive(p: Text, c: Text, k: Text)
    requires c in Ancestors(p) && k in Ancestors(c)
    ensures k in Ancestors(p)
    decreases |p|
  {
    if c == [] {
      assert Ancestors([]) == [[]];
    } else if c != Parent(p) {
      AncestorsTransitive(Parent(p), c, k);
    } else {
      assert Ancestors(p) == [c] + Ancestors(c);
    }
  }

  /** Starting from a derivation or an earlier update of one, the incremental result
      is the full derivation exactly when every childless directory of the new index
      had a node that was not dirty; in particular whenever there is none. */
  lemma UpdateIsDerive(h: Hasher, s: TreeSnapshot, idx0: Index, changed: seq<Text>, r: TreeSnapshot,
                       full: TreeSnapshot, idx: Index)
    requires Consistent(h, s, idx0) && Tight(s.nodes.Keys, idx0) && Covers(changed, idx0, idx)
    requires Consistent(h, r, idx)
    requires forall k :: k in r.nodes <==> Survives(s.nodes.Keys, idx, changed, k)
    requires Consistent(h, full, idx) && CanonicalKeys(full.nodes.Keys, idx)
    ensures Tight(r.nodes.Keys, idx)
    ensures r == full <==>
      forall d :: ChildlessDir(idx, d) ==> d in s.nodes && !Dirty(s.nodes.Keys, idx, changed, d)
  {
    var keys := s.nodes.Keys;
    forall k | k in r.nodes ensures Canonical(idx, k) { UpdateTight(keys, idx0, idx, changed, k); }
    forall k | k in full.nodes && !ChildlessDir(idx, k) ensures k in r.nodes {
      assert Canonical(idx, k);
      if k != [] {
        var p :| p in idx && k in Ancestors(p);
        AncestorsPresent(r.nodes.Keys, idx, p, k);
      }
    }
    forall d | ChildlessDir(idx, d)
      ensures d in full.nodes
      ensures d in r.nodes <==> d in keys && !Dirty(keys, idx, changed, d)
    {
      assert Canonical(idx, d);
      ChildlessGone(keys, idx0, idx, changed, d);
    }
    assert (forall d :: ChildlessDir(idx, d) ==> d in keys && !Dirty(keys, idx, changed, d))
      ==> r.nodes.Keys == full.nodes.Keys;
    SnapshotUnique(h, r, full, idx);
  }

  lemma ChildlessGone(keys: set<Text>, idx0: Index, idx: Index, changed: seq<Text>, d: Text)
    requires Tight(keys, idx0) && Covers(changed, idx0, idx) && IndexOk(idx) && ChildlessDir(idx, d)
    ensures Survives(keys, idx, changed, d) <==> d in keys && !Dirty(keys, idx, changed, d)
  {
    if Dirty(keys, idx, changed, d) && Survives(keys, idx, changed, d) {
      var c :| c in keys && !Dirty(keys, idx, changed, c) && d in Ancestors(c);
      CleanStaysCanonical(keys, idx0, idx, changed, c);
      assert Ancestors([]) == [[]];
      assert c in idx ==> Inhabited(idx, d);
      if c != [] && c !in idx {
        var p :| p in idx && c in Ancestors(p);
        AncestorsTransitive(p, c, d);
      }
    }
  }

  /** The smallest case in which they differ: a directory "d" is created in an empty folder.
      The derivation makes a node for it, the update does not. */
  lemma NewDirectoryDiffers(h: Hasher, s: TreeSnapshot, e: Entry, r: TreeSnapshot, full: TreeSnapshot)
    requires e.path == Ascii("d") && e.kind == Dir
    requires Consistent(h, s, map[]) && Tight(s.nodes.Keys, map[])
    requires Consistent(h, r, map[e.path := e])
    requires forall k :: k in r.nodes <==> Survives(s.nodes.Keys, map[e.path := e], [e.path], k)
    requires Consistent(h, full, map[e.path := e]) && CanonicalKeys(full.nodes.Keys, map[e.path := e])
    ensures r != full && e.path in full.nodes && e.path !in r.nodes
  {
    var idx: Index := map[e.path := e];
    assert LastSlash(e.path) == -1 && Parent(e.path) == [];
    assert Ancestors(e.path) == [[]];
    assert ChildlessDir(idx, e.path);
    assert Canonical(idx, e.path);
    assert OnPathOf(e.path, e.path);
    assert Dirty(s.nodes.Keys, idx, [e.path], e.path);
    ChildlessGone(s.nodes.Keys, map[], idx, [e.path], e.path);
  }

  // ---------- updates compose ----------

  /** Exactly the root and the ancestors of entries have nodes. */
  ghost predicate Pruned(keys: set<Text>, idx: Index) {
    forall k :: k in keys <==> k == [] || Inhabited(idx, k)
  }

  /** A pruned snapshot stays pruned, so it then depends on the index alone:
      one update for a batch equals one update per entry. */
  lemma UpdatePruned(keys: set<Text>, idx0: Index, idx: Index, changed: seq<Text>, after: set<Text>)
    requires Pruned(keys, idx0) && Covers(changed, idx0, idx)
    requires forall k :: k in after <==> Survives(keys, idx, changed, k)
    ensures Pruned(after, idx)
  {
    forall k ensures k in after <==> k == [] || Inhabited(idx, k) {
      if !Dirty(keys, idx, changed, k) {
        if Inhabited(idx0, k) {
          var p :| p in idx0 && k in Ancestors(p);
          assert p in changed && OnPathOf(k, p) ==> Touched(changed, k);
        }
        if Inhabited(idx, k) {
          var p :| p in idx && k in Ancestors(p);
          assert p in changed && OnPathOf(k, p) ==> Touched(changed, k);
        }
      } else if k != [] && Propped(keys, idx, changed, k) {
        var c :| c in keys && !Dirty(keys, idx, changed, c) && k in Ancestors(c);
        assert Ancestors([]) == [[]];
        if c != [] {
          var p :| p in idx0 && c in Ancestors(p);
          assert p in changed && OnPathOf(c, p) ==> Touched(changed, c);
          AncestorsTransitive(p, c, k);
        }
      }
    }
  }

  // ---------- every index has a tree ----------

  /** The bottom-up pass, on values. */
  lemma {:induction false} Recomputed(h: Hasher, idx: Index, nodes0: map<Text, TreeNode>, order: seq<Text>, i: nat)
    returns (nodes: map<Text, TreeNode>)
    requires IndexOk(idx) && CleanKeys(nodes0.Keys) && Ascending(order) && i <= |order|
    requires forall k :: k in order ==> CleanOrRoot(k)
    ensures AllSettled(h, idx, nodes, order[i..]) && SameOutside(nodes0, nodes, order[i..])
    decreases |order| - i
  {
    if i == |order| {
      nodes := nodes0;
    } else {
      var a := Recomputed(h, idx, nodes0, order, i + 1);
      var k := order[i];
      nodes := if Worth(idx, a, k) then a[k := NodeAt(h, idx, a, k)] else a - {k};
      SettleStep(h, idx, order, i, a, nodes);
      OutsideStep(nodes0, a, nodes, order, i);
    }
  }

  /** The tree of an empty folder has the root only. */
  ghost function EmptyTree(h: Hasher): (s: TreeSnapshot)
    ensures Consistent(h, s, map[]) && s.nodes.Keys == {[]}
  {
    var root := NodeAt(h, map[], map[], []);
    var s := TreeSnapshot(root.hash, map[[] := root]);
    RootAlone(h, s);
    s
  }

  lemma RootAlone(h: Hasher, s: TreeSnapshot)
    requires s == TreeSnapshot(NodeAt(h, map[], map[], []).hash, map[[] := NodeAt(h, map[], map[], [])])
    ensures Consistent(h, s, map[])
  {
    var none: map<Text, TreeNode> := map[];
    assert s.nodes == none[[] := NodeAt(h, map[], none, [])];
    SettledHere(h, map[], none, s.nodes, []);
    assert forall k :: k in s.nodes ==> k == [];
  }

  /** The paths of the index and all their ancestors. */
  ghost function Trunk(idx: Index): set<Text> {
    set p, k | p in idx && k in PathToRoot(p) :: k
  }

  lemma TrunkDirty(keys: set<Text>, idx: Index)
    ensures DirtySet(Trunk(idx), keys, idx, Sorted(idx.Keys))
  {
    forall k ensures k in Trunk(idx) <==> Dirty(keys, idx, Sorted(idx.Keys), k) {
      if k in Trunk(idx) {
        var p :| p in idx && k in PathToRoot(p);
        assert p in Sorted(idx.Keys) && OnPathOf(k, p);
      }
      if Touched(Sorted(idx.Keys), k) {
        var p :| p in Sorted(idx.Keys) && OnPathOf(k, p);
        assert p in idx && k in PathToRoot(p);
      }
    }
  }

  ghost predicate IsSnapshot(h: Hasher, idx: Index, s: TreeSnapshot) {
    Consistent(h, s, idx) && s.nodes.Keys <= Trunk(idx) + {[]}
  }

  lemma SnapshotExists(h: Hasher, idx: Index)
    requires IndexOk(idx)
    ensures exists s :: IsSnapshot(h, idx, s)
  {
    var s0, changed, dirty := EmptyTree(h), Sorted(idx.Keys), Trunk(idx);
    TrunkDirty(s0.nodes.Keys, idx);
    DirtyClosed(dirty, s0.nodes.Keys, idx, changed);
    var nodes := Recomputed(h, idx, s0.nodes, Sorted(dirty), 0);
    assert Sorted(dirty)[0..] == Sorted(dirty);
    UpdateConsistent(h, s0, map[], idx, changed, dirty, nodes);
    MixedCovered(s0.nodes.Keys, map[], idx, changed);
    OnlyTouched(h, s0, map[], idx, changed, dirty, nodes);
    forall k | k in nodes ensures k in dirty + {[]} {
      if k !in dirty { assert k !in Sorted(dirty); }
    }
    assert IsSnapshot(h, idx, TreeSnapshot(nodes[[]].hash, nodes));
  }

  /** A snapshot of the index, with no more nodes than paths on the way to its entries. */
  ghost function Snapshot(h: Hasher, idx: Index): (s: TreeSnapshot)
    requires IndexOk(idx)
    ensures IsSnapshot(h, idx, s)
  {
    SnapshotExists(h, idx);
    var s :| IsSnapshot(h, idx, s);
    s
  }
}
