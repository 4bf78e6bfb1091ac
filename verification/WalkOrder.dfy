/** What the reconciliation walk of src/sync.rs has to achieve: a naive pull that offers
    every entry of the peer, node by node in the order in which a stack of prefixes is
    popped. Reconcile.dfy shows that the walk, which skips all it can, ends in the same state. */
module WalkOrder {
  import opened Bytes
  import opened Paths
  import opened Entries
  import opened Tree
  import opened Replicas
  import opened ReplicaFacts
  import opened Convergence

  /** A peer that only answers questions. */
  datatype Remote = Remote(entries: Index, tree: TreeSnapshot)

  // ---------- the order of the nodes ----------

  ghost function Under(keys: set<Text>, k: Text): set<Text> {
    set q | q in keys && AtOrUnder(q, k)
  }

  function Joined(k: Text, names: seq<Text>): (ps: seq<Text>)
    ensures |ps| == |names| && forall i :: 0 <= i < |ps| ==> ps[i] == Join(k, names[i])
  {
    seq(|names|, i requires 0 <= i < |names| => Join(k, names[i]))
  }

  /** The child prefixes of a node, in name order. */
  function ChildPaths(keys: set<Text>, k: Text): seq<Text> {
    Joined(k, Sorted(ChildNames(keys, k)))
  }

  lemma ChildPath(keys: set<Text>, k: Text, c: Text)
    requires CleanKeys(keys)
    ensures c in ChildPaths(keys, k) <==> c in keys && c != [] && Parent(c) == k
  {
    var names, cs := Sorted(ChildNames(keys, k)), ChildPaths(keys, k);
    if c in cs {
      var i :| 0 <= i < |cs| && cs[i] == c;
      assert names[i] in names;
      ChildName(keys, k, names[i]);
    }
    if c in keys && c != [] && Parent(c) == k {
      ParentBase(c);
      assert Base(c) in names;
      var i :| 0 <= i < |names| && names[i] == Base(c);
      assert cs[i] == c;
    }
  }

  lemma UnderShrinks(keys: set<Text>, k: Text, c: Text)
    requires k in keys && c != [] && Parent(c) == k
    ensures Under(keys, c) < Under(keys, k)
  {
    forall q | q in Under(keys, c) ensures q in Under(keys, k) {
      assert AtOrUnder(c, k);
      AtOrUnderTransitive(q, c, k);
    }
    if AtOrUnder(k, c) { AtOrUnderLonger(k, c); }
    assert k in Under(keys, k) && k !in Under(keys, c);
  }

  ghost predicate ChildrenOf(keys: set<Text>, k: Text, cs: seq<Text>) {
    forall i :: 0 <= i < |cs| ==> cs[i] in keys && cs[i] != [] && Parent(cs[i]) == k
  }

  lemma ChildPathsOk(keys: set<Text>, k: Text)
    requires CleanKeys(keys)
    ensures ChildrenOf(keys, k, ChildPaths(keys, k))
  {
    var cs := ChildPaths(keys, k);
    forall i | 0 <= i < |cs| ensures cs[i] in keys && cs[i] != [] && Parent(cs[i]) == k {
      assert cs[i] in cs;
      ChildPath(keys, k, cs[i]);
    }
  }

  /** The nodes from `k` down, in the order a walk visits them: a node, then the
      subtrees of its children, the last pushed first. */
  ghost function Preorder(keys: set<Text>, k: Text): (r: seq<Text>)
    requires CleanKeys(keys) && k in keys
    ensures r != [] && r[0] == k
    decreases Under(keys, k), 1, 0
  {
    ChildPathsOk(keys, k);
    [k] + PopAll(keys, k, ChildPaths(keys, k))
  }

  ghost function PopAll(keys: set<Text>, k: Text, cs: seq<Text>): seq<Text>
    requires CleanKeys(keys) && k in keys
    requires ChildrenOf(keys, k, cs)
    decreases Under(keys, k), 0, |cs|
  {
    if cs == [] then [] else
      UnderShrinks(keys, k, cs[|cs| - 1]);
      Preorder(keys, cs[|cs| - 1]) + PopAll(keys, k, cs[..|cs| - 1])
  }

  ghost predicate AllKeys(keys: set<Text>, stack: seq<Text>) {
    forall i :: 0 <= i < |stack| ==> stack[i] in keys
  }

  /** The nodes a walk still has to visit with this stack. */
  ghost function Pending(keys: set<Text>, stack: seq<Text>): seq<Text>
    requires CleanKeys(keys) && AllKeys(keys, stack)
    decreases |stack|
  {
    if stack == [] then [] else
      Preorder(keys, stack[|stack| - 1]) + Pending(keys, stack[..|stack| - 1])
  }

  lemma {:induction false} PopAllPending(keys: set<Text>, k: Text, cs: seq<Text>)
    requires CleanKeys(keys) && k in keys
    requires ChildrenOf(keys, k, cs)
    ensures PopAll(keys, k, cs) == Pending(keys, cs)
    decreases |cs|
  {
    if cs != [] { PopAllPending(keys, k, cs[..|cs| - 1]); }
  }

  /** Visiting a node puts its children on top of the stack. */
  lemma PreorderPending(keys: set<Text>, k: Text)
    requires CleanKeys(keys) && k in keys
    ensures AllKeys(keys, ChildPaths(keys, k))
    ensures Preorder(keys, k) == [k] + Pending(keys, ChildPaths(keys, k))
  {
    ChildPathsOk(keys, k);
    PopAllPending(keys, k, ChildPaths(keys, k));
  }

  lemma PendingOne(keys: set<Text>, k: Text)
    requires CleanKeys(keys) && k in keys
    ensures AllKeys(keys, [k]) && Pending(keys, [k]) == Preorder(keys, k)
  {
    assert [k][..0] == [] && [k][0] == k;
    assert Preorder(keys, k) + [] == Preorder(keys, k);
  }

  lemma LastOfBoth(a: seq<Text>, b: seq<Text>)
    ensures b == [] ==> a + b == a
    ensures b != [] ==> (a + b)[|a + b| - 1] == b[|b| - 1] && (a + b)[..|a + b| - 1] == a + b[..|b| - 1]
  {
  }

  lemma PathsAssociate(a: seq<Text>, b: seq<Text>, c: seq<Text>)
    ensures (a + b) + c == a + (b + c)
    ensures [] + c == c
  {
  }

  lemma {:induction false} PendingAppend(keys: set<Text>, a: seq<Text>, b: seq<Text>)
    requires CleanKeys(keys) && AllKeys(keys, a) && AllKeys(keys, b)
    ensures AllKeys(keys, a + b)
    ensures Pending(keys, a + b) == Pending(keys, b) + Pending(keys, a)
    decreases |b|
  {
    LastOfBoth(a, b);
    if b == [] {
      PathsAssociate([], [], Pending(keys, a));
    } else {
      var top, rest := b[|b| - 1], b[..|b| - 1];
      PendingAppend(keys, a, rest);
      PathsAssociate(Preorder(keys, top), Pending(keys, rest), Pending(keys, a));
    }
  }

  /** Every node visited below `k` lies below `k`. */
  lemma {:induction false} PreorderUnder(keys: set<Text>, k: Text, q: Text)
    requires CleanKeys(keys) && k in keys && q in Preorder(keys, k)
    ensures q in keys && AtOrUnder(q, k)
    decreases Under(keys, k), 1, 0
  {
    if q != k {
      ChildPathsOk(keys, k);
      PopAllUnder(keys, k, ChildPaths(keys, k), q);
    }
  }

  lemma {:induction false} PopAllUnder(keys: set<Text>, k: Text, cs: seq<Text>, q: Text)
    requires CleanKeys(keys) && k in keys && ChildrenOf(keys, k, cs)
    requires cs != [] && q in PopAll(keys, k, cs)
    ensures q in keys && AtOrUnder(q, k)
    decreases Under(keys, k), 0, |cs|
  {
    var c := cs[|cs| - 1];
    UnderShrinks(keys, k, c);
    if q in Preorder(keys, c) {
      PreorderUnder(keys, c, q);
      assert AtOrUnder(c, k);
      AtOrUnderTransitive(q, c, k);
    } else {
      assert q in PopAll(keys, k, cs[..|cs| - 1]);
      PopAllUnder(keys, k, cs[..|cs| - 1], q);
    }
  }

  /** ... and with a visited node its children are visited. */
  lemma {:induction false} PreorderClosed(keys: set<Text>, k: Text, q: Text)
    requires CleanKeys(keys) && k in keys
    requires q in keys && q != [] && Parent(q) in Preorder(keys, k)
    ensures q in Preorder(keys, k)
    decreases Under(keys, k), 1, 0
  {
    ChildPathsOk(keys, k);
    var u := Parent(q);
    if u == k {
      ChildPath(keys, k, q);
      PopAllHas(keys, k, ChildPaths(keys, k), q);
    } else {
      PopAllClosed(keys, k, ChildPaths(keys, k), q);
    }
  }

  lemma {:induction false} PopAllHas(keys: set<Text>, k: Text, cs: seq<Text>, c: Text)
    requires CleanKeys(keys) && k in keys && ChildrenOf(keys, k, cs) && c in cs
    ensures c in PopAll(keys, k, cs)
    decreases |cs|
  {
    var last := cs[|cs| - 1];
    if c == last {
      assert Preorder(keys, last)[0] == last;
    } else {
      assert cs == cs[..|cs| - 1] + [last];
      PopAllHas(keys, k, cs[..|cs| - 1], c);
    }
  }

  lemma {:induction false} PopAllClosed(keys: set<Text>, k: Text, cs: seq<Text>, q: Text)
    requires CleanKeys(keys) && k in keys && ChildrenOf(keys, k, cs)
    requires q in keys && q != [] && cs != [] && Parent(q) in PopAll(keys, k, cs)
    ensures q in PopAll(keys, k, cs)
    decreases Under(keys, k), 0, |cs|
  {
    var c := cs[|cs| - 1];
    UnderShrinks(keys, k, c);
    if Parent(q) in Preorder(keys, c) {
      PreorderClosed(keys, c, q);
    } else {
      assert Parent(q) in PopAll(keys, k, cs[..|cs| - 1]);
      PopAllClosed(keys, k, cs[..|cs| - 1], q);
    }
  }

  /** A walk from the root visits every node. */
  lemma {:induction false} PreorderComplete(keys: set<Text>, q: Text)
    requires CleanKeys(keys) && [] in keys && (forall k {:trigger Parent(k)} :: k in keys ==> Parent(k) in keys)
    requires q in keys
    ensures q in Preorder(keys, [])
    decreases |q|
  {
    if q != [] {
      PreorderComplete(keys, Parent(q));
      PreorderClosed(keys, [], q);
    }
  }

  // ---------- the entries offered at a node ----------

  /** The entries filed directly below `k`, in name order. */
  function Named(idx: Index, k: Text): (es: seq<Entry>)
    requires CleanKeys(idx.Keys)
    ensures |es| == |ChildPaths(idx.Keys, k)|
    ensures forall i :: 0 <= i < |es| ==> ChildPaths(idx.Keys, k)[i] in idx && es[i] == idx[ChildPaths(idx.Keys, k)[i]]
  {
    ChildPathsOk(idx.Keys, k);
    InOrder(idx, ChildPaths(idx.Keys, k))
  }

  function Others(es: seq<Entry>): (r: seq<Entry>)
    ensures forall e :: e in r <==> e in es && e.kind != File
  {
    if es == [] then [] else if es[0].kind == File then Others(es[1..]) else [es[0]] + Others(es[1..])
  }

  function Files(es: seq<Entry>): (r: seq<Entry>)
    ensures forall e :: e in r <==> e in es && e.kind == File
  {
    if es == [] then [] else if es[0].kind == File then [es[0]] + Files(es[1..]) else Files(es[1..])
  }

  /** The members of `files`, in the order in which their downloads finish. */
  function Arrived(arrivals: seq<Entry>, files: seq<Entry>): (r: seq<Entry>)
    ensures forall e :: e in r <==> e in arrivals && e in files
  {
    if arrivals == [] then []
    else if arrivals[0] in files then [arrivals[0]] + Arrived(arrivals[1..], files)
    else Arrived(arrivals[1..], files)
  }

  /** All entries of a node: directories, links and tombstones in name order, then the files. */
  function NodeOffers(remote: Remote, k: Text, arrivals: seq<Entry>): seq<Entry>
    requires CleanKeys(remote.entries.Keys)
  {
    Others(Named(remote.entries, k)) + Arrived(arrivals, Files(Named(remote.entries, k)))
  }

  /** All entries of a list of nodes. */
  function Listing(remote: Remote, ks: seq<Text>, arrivals: seq<Entry>): seq<Entry>
    requires CleanKeys(remote.entries.Keys)
  {
    if ks == [] then [] else NodeOffers(remote, ks[0], arrivals) + Listing(remote, ks[1..], arrivals)
  }

  lemma NodeOfferPath(remote: Remote, k: Text, arrivals: seq<Entry>, e: Entry)
    requires IndexOk(remote.entries) && e in NodeOffers(remote, k, arrivals)
    ensures e.path in remote.entries && remote.entries[e.path] == e && Parent(e.path) == k
  {
    var es := Named(remote.entries, k);
    assert e in es;
    var i :| 0 <= i < |es| && es[i] == e;
    ChildPath(remote.entries.Keys, k, ChildPaths(remote.entries.Keys, k)[i]);
  }

  lemma {:induction false} ListingPath(remote: Remote, ks: seq<Text>, arrivals: seq<Entry>, e: Entry)
    requires IndexOk(remote.entries) && e in Listing(remote, ks, arrivals)
    ensures e.path in remote.entries && remote.entries[e.path] == e && Parent(e.path) in ks
    decreases |ks|
  {
    if e in NodeOffers(remote, ks[0], arrivals) {
      NodeOfferPath(remote, ks[0], arrivals, e);
    } else {
      ListingPath(remote, ks[1..], arrivals, e);
    }
  }

  /** Every file of the peer's finishes downloading, once. */
  ghost predicate ArrivalsOk(remote: Remote, arrivals: seq<Entry>) {
    && (forall p :: p in remote.entries && remote.entries[p].kind == File ==> remote.entries[p] in arrivals)
    && (forall i, j :: 0 <= i < j < |arrivals| ==> arrivals[i] != arrivals[j])
  }

  lemma NamedHas(idx: Index, p: Text)
    requires IndexOk(idx) && p in idx
    ensures idx[p] in Named(idx, Parent(p))
  {
    var cs := ChildPaths(idx.Keys, Parent(p));
    ChildPath(idx.Keys, Parent(p), p);
    var i :| 0 <= i < |cs| && cs[i] == p;
    assert Named(idx, Parent(p))[i] == idx[p];
  }

  lemma {:induction false} ListingHas(remote: Remote, ks: seq<Text>, arrivals: seq<Entry>, p: Text)
    requires IndexOk(remote.entries) && ArrivalsOk(remote, arrivals)
    requires p in remote.entries && Parent(p) in ks
    ensures remote.entries[p] in Listing(remote, ks, arrivals)
    decreases |ks|
  {
    if Parent(p) == ks[0] {
      NamedHas(remote.entries, p);
      assert remote.entries[p] in NodeOffers(remote, ks[0], arrivals);
    } else {
      ListingHas(remote, ks[1..], arrivals, p);
    }
  }

  /** Everything the peer has, in the order of a walk that skips nothing. */
  ghost function Everything(remote: Remote, arrivals: seq<Entry>): seq<Entry>
    requires CleanKeys(remote.entries.Keys) && CleanKeys(remote.tree.nodes.Keys) && [] in remote.tree.nodes
  {
    Listing(remote, Preorder(remote.tree.nodes.Keys, []), arrivals)
  }

  /** ... which is indeed everything, and nothing else. */
  lemma EverythingListed(h: Hasher, remote: Remote, arrivals: seq<Entry>)
    requires Consistent(h, remote.tree, remote.entries) && ArrivalsOk(remote, arrivals)
    ensures Lists(Everything(remote, arrivals), remote.entries)
  {
    var keys := remote.tree.nodes.Keys;
    forall p | p in remote.entries ensures remote.entries[p] in Everything(remote, arrivals) {
      PreorderComplete(keys, Parent(p));
      ListingHas(remote, Preorder(keys, []), arrivals, p);
    }
    forall e | e in Everything(remote, arrivals) ensures e.path in remote.entries && remote.entries[e.path] == e {
      ListingPath(remote, Preorder(keys, []), arrivals, e);
    }
  }

  // ---------- leaving out what is dominated ----------

  /** `thin` is `full` without some of the entries the replica dominates. */
  ghost predicate Thins(r: Replica, full: seq<Entry>, thin: seq<Entry>)
    decreases |full|
  {
    if full == [] then thin == [] else
      || (Dominates(r, full[0]) && Thins(r, full[1..], thin))
      || (thin != [] && thin[0] == full[0] && Thins(r, full[1..], thin[1..]))
  }

  /** `b` is at least as far as `a` at every path. */
  ghost predicate Ahead(a: Replica, b: Replica) {
    && a.watermark == b.watermark
    && forall p {:trigger NotOlder(a.entries, b.entries, p)} :: NotOlder(a.entries, b.entries, p)
  }

  lemma OffersAhead(l: Log, es: seq<Entry>)
    requires RepOk(l.rep)
    ensures Ahead(l.rep, OfferAll(l, es).rep) && RepOk(OfferAll(l, es).rep)
  {
    OfferAllNotOlder(l, es, []);
    forall p ensures NotOlder(l.rep.entries, OfferAll(l, es).rep.entries, p) { OfferAllNotOlder(l, es, p); }
  }

  lemma StillDominates(a: Replica, b: Replica, e: Entry)
    requires Ahead(a, b) && Dominates(a, e)
    ensures Dominates(b, e)
  {
    assert NotOlder(a.entries, b.entries, e.path);
    DominationKept(a, b, e);
  }

  lemma {:induction false} ThinsLater(a: Replica, b: Replica, full: seq<Entry>, thin: seq<Entry>)
    requires Ahead(a, b) && Thins(a, full, thin)
    ensures Thins(b, full, thin)
    decreases |full|
  {
    if full != [] {
      if Dominates(a, full[0]) && Thins(a, full[1..], thin) {
        StillDominates(a, b, full[0]);
        ThinsLater(a, b, full[1..], thin);
      } else {
        ThinsLater(a, b, full[1..], thin[1..]);
      }
    }
  }

  /** Leaving out what is dominated makes no difference. */
  lemma {:induction false} ThinOffers(l: Log, full: seq<Entry>, thin: seq<Entry>)
    requires RepOk(l.rep) && Thins(l.rep, full, thin)
    ensures OfferAll(l, full) == OfferAll(l, thin)
    decreases |full|
  {
    if full != [] {
      if Dominates(l.rep, full[0]) && Thins(l.rep, full[1..], thin) {
        AcceptIffNotDominated(l.rep, full[0]);
        ThinOffers(l, full[1..], thin);
      } else {
        var m := Offer(l, full[0]);
        OffersAhead(l, [full[0]]);
        assert OfferAll(l, [full[0]]) == m;
        ThinsLater(l.rep, m.rep, full[1..], thin[1..]);
        ThinOffers(m, full[1..], thin[1..]);
      }
    }
  }

  lemma {:induction false} ThinsAppend(r: Replica, a: seq<Entry>, s: seq<Entry>, b: seq<Entry>, t: seq<Entry>)
    requires Thins(r, a, s) && Thins(r, b, t)
    ensures Thins(r, a + b, s + t)
    decreases |a|
  {
    if a == [] {
      assert a + b == b && s + t == t;
    } else {
      assert (a + b)[0] == a[0] && (a + b)[1..] == a[1..] + b;
      if Dominates(r, a[0]) && Thins(r, a[1..], s) {
        ThinsAppend(r, a[1..], s, b, t);
      } else {
        assert (s + t)[0] == s[0] && (s + t)[1..] == s[1..] + t;
        ThinsAppend(r, a[1..], s[1..], b, t);
      }
    }
  }

  lemma {:induction false} ThinsMembers(r: Replica, full: seq<Entry>, thin: seq<Entry>)
    requires Thins(r, full, thin)
    ensures forall e :: e in thin ==> e in full
    ensures forall e :: e in full ==> e in thin || Dominates(r, e)
    decreases |full|
  {
    if full != [] {
      if Dominates(r, full[0]) && Thins(r, full[1..], thin) {
        ThinsMembers(r, full[1..], thin);
      } else {
        ThinsMembers(r, full[1..], thin[1..]);
        assert full == [full[0]] + full[1..] && thin == [full[0]] + thin[1..];
      }
    }
  }

  lemma ThinsKeep(r: Replica, e: Entry, full: seq<Entry>, thin: seq<Entry>)
    requires Thins(r, full, thin)
    ensures Thins(r, [e] + full, [e] + thin)
    ensures Dominates(r, e) ==> Thins(r, [e] + full, thin)
  {
    assert ([e] + full)[0] == e && ([e] + full)[1..] == full;
    assert ([e] + thin)[0] == e && ([e] + thin)[1..] == thin;
  }

  lemma {:induction false} ThinsOthers(r: Replica, full: seq<Entry>, thin: seq<Entry>)
    requires Thins(r, full, thin)
    ensures Thins(r, Others(full), Others(thin))
    decreases |full|
  {
    if full != [] {
      if Dominates(r, full[0]) && Thins(r, full[1..], thin) {
        ThinsOthers(r, full[1..], thin);
        ThinsKeep(r, full[0], Others(full[1..]), Others(thin));
      } else {
        ThinsOthers(r, full[1..], thin[1..]);
        ThinsKeep(r, full[0], Others(full[1..]), Others(thin[1..]));
      }
    }
  }

  lemma {:induction false} ThinsArrived(r: Replica, arrivals: seq<Entry>, full: seq<Entry>, thin: seq<Entry>)
    requires forall e :: e in thin ==> e in full
    requires forall e :: e in full ==> e in thin || Dominates(r, e)
    ensures Thins(r, Arrived(arrivals, full), Arrived(arrivals, thin))
    decreases |arrivals|
  {
    if arrivals != [] {
      ThinsArrived(r, arrivals[1..], full, thin);
      ThinsKeep(r, arrivals[0], Arrived(arrivals[1..], full), Arrived(arrivals[1..], thin));
    }
  }

  /** Offering what is left of a node after leaving out what is dominated. */
  lemma ThinNode(l: Log, remote: Remote, k: Text, arrivals: seq<Entry>, thin: seq<Entry>)
    requires RepOk(l.rep) && CleanKeys(remote.entries.Keys) && Thins(l.rep, Named(remote.entries, k), thin)
    ensures OfferAll(l, NodeOffers(remote, k, arrivals)) ==
      OfferAll(OfferAll(l, Others(thin)), Arrived(arrivals, Files(thin)))
  {
    var full := Named(remote.entries, k);
    ThinsOthers(l.rep, full, thin);
    ThinsMembers(l.rep, full, thin);
    ThinsArrived(l.rep, arrivals, Files(full), Files(thin));
    ThinsAppend(l.rep, Others(full), Others(thin), Arrived(arrivals, Files(full)), Arrived(arrivals, Files(thin)));
    ThinOffers(l, NodeOffers(remote, k, arrivals), Others(thin) + Arrived(arrivals, Files(thin)));
    OfferAppend(l, Others(thin), Arrived(arrivals, Files(thin)));
  }
}
