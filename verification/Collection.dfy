/** Tombstone collection (src/state.rs `merge_gc_watermark`,
    `gc_tombstones_for_converged_root`): watermarks form a semilattice, and the
    index left behind depends only on the watermark reached. */
module Collection {
  import opened Bytes
  import opened Entries
  import opened TreeBuild
  import opened Replicas

  lemma MergeOk(r: Replica, w: Watermark)
    requires RepOk(r)
    ensures RepOk(MergeWatermark(r, w))
  {
    var m := JoinMarks(r.watermark, w);
    if !Raises(r.watermark, w) {
      assert r.origin in w ==> w[r.origin] <= Mark(r.watermark, r.origin);
      assert Mark(m, r.origin) == Mark(r.watermark, r.origin);
    }
    assert Mark(m, r.origin) <= MergeWatermark(r, w).lamport;
  }

  /** Merging forgets tombstones the new watermark covers and nothing else. The clock catches up
      with the mark for the node itself, and moves one past that if anything was forgotten. */
  lemma MergeClock(r: Replica, w: Watermark)
    requires RepOk(r)
    ensures
      var after, caughtUp := MergeWatermark(r, w), Max(r.lamport, Mark(w, r.origin));
      && after.lamport == (if Forgets(r, after) then caughtUp + 1 else caughtUp)
      && forall p :: p in r.entries ==>
           var e := r.entries[p];
           if e.kind == Tombstone && e.version.origin in w && e.version.lamport <= w[e.version.origin]
           then p !in after.entries
           else p in after.entries && after.entries[p] == e
  {
    var m := JoinMarks(r.watermark, w);
    MarkJoin(r.watermark, w, r.origin);
    forall p | p in r.entries
      ensures DeadTombstone(m, r.entries[p]) <==> DeadTombstone(w, r.entries[p])
    {
      var o := r.entries[p].version.origin;
      MarkJoin(r.watermark, w, o);
      assert !DeadTombstone(r.watermark, r.entries[p]);
    }
    assert Forgets(r, MergeWatermark(r, w)) <==> Prune(r.entries, m) != r.entries;
  }

  ghost predicate Forgets(before: Replica, after: Replica) {
    exists p :: p in before.entries && p !in after.entries
  }

  lemma MarkJoin(a: Watermark, b: Watermark, o: Text)
    ensures Mark(JoinMarks(a, b), o) == Max(Mark(a, o), Mark(b, o))
    ensures o in JoinMarks(a, b) <==> o in a || o in b
  {
  }

  /** A merge counts as a change exactly if some mark goes up. */
  lemma RaisesExactly(a: Watermark, b: Watermark)
    ensures Raises(a, b) <==> exists o :: Mark(a, o) < Mark(JoinMarks(a, b), o)
  {
    if o :| o in b && Mark(a, o) < b[o] { MarkJoin(a, b, o); }
    if o :| Mark(a, o) < Mark(JoinMarks(a, b), o) { MarkJoin(a, b, o); }
  }

  lemma SameMarks(a: Watermark, b: Watermark)
    requires forall o {:trigger Mark(a, o)} {:trigger Mark(b, o)} :: (o in a <==> o in b) && Mark(a, o) == Mark(b, o)
    ensures a == b
  {
    forall o ensures (o in a <==> o in b) && (o in a ==> a[o] == b[o]) {
      assert Mark(a, o) == Mark(b, o);
    }
  }

  /** Watermarks form a semilattice under the pointwise maximum. */
  lemma JoinLaws(a: Watermark, b: Watermark, c: Watermark)
    ensures JoinMarks(a, b) == JoinMarks(b, a)
    ensures JoinMarks(JoinMarks(a, b), c) == JoinMarks(a, JoinMarks(b, c))
    ensures JoinMarks(a, a) == a
  {
    forall o {:trigger Mark(JoinMarks(a, b), o)}
      ensures (o in JoinMarks(a, b) <==> o in JoinMarks(b, a)) && Mark(JoinMarks(a, b), o) == Mark(JoinMarks(b, a), o)
    {
      MarkJoin(a, b, o);
      MarkJoin(b, a, o);
    }
    SameMarks(JoinMarks(a, b), JoinMarks(b, a));
    JoinAssociative(a, b, c);
    forall o {:trigger Mark(JoinMarks(a, a), o)}
      ensures (o in JoinMarks(a, a) <==> o in a) && Mark(JoinMarks(a, a), o) == Mark(a, o)
    {
      MarkJoin(a, a, o);
    }
    SameMarks(JoinMarks(a, a), a);
  }

  lemma JoinAssociative(a: Watermark, b: Watermark, c: Watermark)
    ensures JoinMarks(JoinMarks(a, b), c) == JoinMarks(a, JoinMarks(b, c))
  {
    var x, y := JoinMarks(JoinMarks(a, b), c), JoinMarks(a, JoinMarks(b, c));
    forall o {:trigger Mark(x, o)} ensures (o in x <==> o in y) && Mark(x, o) == Mark(y, o) {
      MarkJoin(a, b, o);
      MarkJoin(JoinMarks(a, b), c, o);
      MarkJoin(b, c, o);
      MarkJoin(a, JoinMarks(b, c), o);
    }
    SameMarks(x, y);
  }

  /** Merge a sequence of watermarks, one after the other. */
  function MergeAll(r: Replica, ws: seq<Watermark>): Replica
    decreases |ws|
  {
    if ws == [] then r else MergeAll(MergeWatermark(r, ws[0]), ws[1..])
  }

  /** `n` is the mark for `o` in `base` or one of `ws`. */
  ghost predicate Marked(base: Watermark, ws: seq<Watermark>, o: Text, n: nat) {
    (o in base && base[o] == n) || exists v :: v in ws && o in v && v[o] == n
  }

  /** `w` holds, for each origin marked by `base` or one of `ws`, the highest of the marks. */
  ghost predicate IsJoinOf(base: Watermark, ws: seq<Watermark>, w: Watermark) {
    && (forall o :: o in w ==> Marked(base, ws, o, w[o]))
    && (forall o, n {:trigger Marked(base, ws, o, n)} :: Marked(base, ws, o, n) ==> o in w && n <= w[o])
  }

  lemma PruneMore(idx: Index, a: Watermark, b: Watermark)
    requires forall o :: o in a ==> o in b && a[o] <= b[o]
    ensures Prune(Prune(idx, a), b) == Prune(idx, b)
  {
    forall p | p in idx && DeadTombstone(a, idx[p]) ensures DeadTombstone(b, idx[p]) {}
  }

  /** Whatever is merged, the index is the original one less the tombstones covered
      by the watermark reached, and that is the pointwise maximum. */
  lemma {:induction false} MergeAllResult(r: Replica, ws: seq<Watermark>)
    requires RepOk(r)
    ensures IsJoinOf(r.watermark, ws, MergeAll(r, ws).watermark)
    ensures MergeAll(r, ws).entries == Prune(r.entries, MergeAll(r, ws).watermark)
    ensures RepOk(MergeAll(r, ws))
    decreases |ws|
  {
    if ws == [] {
      assert Prune(r.entries, r.watermark) == r.entries;
    } else {
      var m, t := MergeWatermark(r, ws[0]), MergeAll(r, ws);
      MergeOk(r, ws[0]);
      MergeAllResult(m, ws[1..]);
      JoinStep(r.watermark, ws, m.watermark, t.watermark);
      PruneMore(r.entries, m.watermark, t.watermark);
    }
  }

  lemma MarkedTail(base: Watermark, ws: seq<Watermark>, m: Watermark, o: Text, n: nat)
    requires ws != [] && m == JoinMarks(base, ws[0])
    ensures Marked(base, ws, o, n) ==> (o in m && n <= m[o]) || Marked(m, ws[1..], o, n)
    ensures o in m ==> Marked(base, ws, o, m[o])
    ensures Marked(m, ws[1..], o, n) ==> Marked(base, ws, o, n)
  {
    assert ws[0] in ws;
    assert forall v :: v in ws <==> v == ws[0] || v in ws[1..];
  }

  lemma JoinStep(base: Watermark, ws: seq<Watermark>, m: Watermark, w: Watermark)
    requires ws != [] && m == JoinMarks(base, ws[0]) && IsJoinOf(m, ws[1..], w)
    ensures IsJoinOf(base, ws, w)
    ensures forall o :: o in m ==> o in w && m[o] <= w[o]
  {
    forall o | o in m ensures o in w && m[o] <= w[o] { assert Marked(m, ws[1..], o, m[o]); }
    forall o | o in w ensures Marked(base, ws, o, w[o]) { MarkedTail(base, ws, m, o, w[o]); }
    forall o, n | Marked(base, ws, o, n) ensures o in w && n <= w[o] {
      MarkedTail(base, ws, m, o, n);
    }
  }

  lemma JoinOfUnique(base: Watermark, ws: seq<Watermark>, vs: seq<Watermark>, x: Watermark, y: Watermark)
    requires forall w :: w in ws <==> w in vs
    requires IsJoinOf(base, ws, x) && IsJoinOf(base, vs, y)
    ensures x == y
  {
    forall o, n ensures Marked(base, ws, o, n) <==> Marked(base, vs, o, n) {}
    forall o | o in x ensures o in y && x[o] <= y[o] { assert Marked(base, ws, o, x[o]); }
    forall o | o in y ensures o in x && y[o] <= x[o] { assert Marked(base, vs, o, y[o]); }
  }

  /** The order and multiplicity of the merges do not matter. */
  lemma MergeOrder(r: Replica, ws: seq<Watermark>, vs: seq<Watermark>)
    requires RepOk(r) && forall w :: w in ws <==> w in vs
    ensures MergeAll(r, ws).watermark == MergeAll(r, vs).watermark
    ensures MergeAll(r, ws).entries == MergeAll(r, vs).entries
  {
    MergeAllResult(r, ws);
    MergeAllResult(r, vs);
    JoinOfUnique(r.watermark, ws, vs, MergeAll(r, ws).watermark, MergeAll(r, vs).watermark);
  }

  /** Nor does their grouping. */
  lemma MergeGrouped(r: Replica, a: Watermark, b: Watermark)
    requires RepOk(r)
    ensures MergeWatermark(r, JoinMarks(a, b)).watermark == MergeWatermark(MergeWatermark(r, a), b).watermark
    ensures MergeWatermark(r, JoinMarks(a, b)).entries == MergeWatermark(MergeWatermark(r, a), b).entries
  {
    JoinLaws(r.watermark, a, b);
    PruneMore(r.entries, JoinMarks(r.watermark, a), JoinMarks(JoinMarks(r.watermark, a), b));
  }

  ghost predicate HasTombstone(idx: Index) {
    exists p :: p in idx && idx[p].kind == Tombstone
  }

  /** Collecting after convergence leaves exactly the live entries. */
  lemma CollectLeavesLive(r: Replica, r2: Replica)
    requires RepOk(r) && Collects(r, r2)
    ensures r2.entries == LivePart(r.entries)
    ensures RepOk(r2)
    ensures HasTombstone(r.entries) <==> r2 != r
  {
    var m :| IsMarks(m, r.entries) && r2 == if m == map[] then r else MergeWatermark(r, m);
    if m == map[] { NoMarks(r.entries, m); } else { SomeMarks(r, m); }
  }

  lemma NoMarks(idx: Index, m: Watermark)
    requires IsMarks(m, idx) && m == map[]
    ensures LivePart(idx) == idx && !HasTombstone(idx)
  {
    forall p | p in idx ensures Live(idx[p]) {
      if idx[p].kind == Tombstone { assert Covered(m, idx[p].version); }
    }
  }

  lemma SomeMarks(r: Replica, m: Watermark)
    requires RepOk(r) && IsMarks(m, r.entries) && m != map[]
    ensures MergeWatermark(r, m).entries == LivePart(r.entries)
    ensures RepOk(MergeWatermark(r, m))
    ensures HasTombstone(r.entries) && MergeWatermark(r, m) != r
  {
    MergeOk(r, m);
    MarksGrow(r.watermark, m);
    PruneAllDead(r.entries, JoinMarks(r.watermark, m), m);
    var o :| o in m;
    var q :| TopTombstone(r.entries, q, o, m[o]);
    assert q !in LivePart(r.entries);
  }

  lemma MarksGrow(a: Watermark, b: Watermark)
    ensures forall o :: o in b ==> o in JoinMarks(a, b) && b[o] <= JoinMarks(a, b)[o]
  {
  }

  lemma PruneAllDead(idx: Index, w: Watermark, m: Watermark)
    requires IsMarks(m, idx) && forall o :: o in m ==> o in w && m[o] <= w[o]
    ensures Prune(idx, w) == LivePart(idx)
  {
    forall p | p in idx ensures DeadTombstone(w, idx[p]) <==> !Live(idx[p]) {
      if idx[p].kind == Tombstone { assert Covered(m, idx[p].version); }
    }
  }

  /** Two nodes that agree on the index still agree after both collect. */
  lemma CollectAgrees(a: Replica, a2: Replica, b: Replica, b2: Replica)
    requires RepOk(a) && RepOk(b) && a.entries == b.entries
    requires Collects(a, a2) && Collects(b, b2)
    ensures a2.entries == b2.entries
  {
    CollectLeavesLive(a, a2);
    CollectLeavesLive(b, b2);
  }
}
