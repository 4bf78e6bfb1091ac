/** What offering a set of remote entries achieves: the replica dominates all of
    them; when nothing is tombstoned on the way, the index becomes the pointwise
    version maximum whatever the order; and two opposite pulls agree. */
module Convergence {
  import opened Wrappers
  import opened Bytes
  import opened Paths
  import opened Entries
  import opened Replicas
  import opened ReplicaFacts

  // ---------- domination ----------

  /** The replica holds this entry or a newer one, or refuses it for good: its path
      is invalid or it is a tombstone the watermark has already collected. */
  ghost predicate Dominates(r: Replica, e: Entry) {
    || !ValidRemotePath(e.path)
    || DeadTombstone(r.watermark, e)
    || (e.path in r.entries && e.version.AtMost(r.entries[e.path].version))
  }

  /** The replica is at least as far as an index it once had. */
  ghost predicate Passed(r: Replica, shown: Index) {
    forall p :: p in shown ==> Dominates(r, shown[p])
  }

  /** Exactly the entries a replica would take are the ones it does not dominate. */
  lemma AcceptIffNotDominated(r: Replica, e: Entry)
    ensures ShouldAccept(r, e) <==> !Dominates(r, e)
  {
    if e.path in r.entries { VersionTotal(e.version, r.entries[e.path].version); }
  }

  lemma OfferDominates(l: Log, e: Entry)
    requires RepOk(l.rep)
    ensures Dominates(Offer(l, e).rep, e)
  {
    AcceptIffNotDominated(l.rep, e);
    if ShouldAccept(l.rep, e) {
      StoreOk(l, e);
      AcceptGrows(l, e);
      GrowsNotOlder(Store(l, e), Accept(l, e), e.path);
    }
  }

  lemma DominationKept(a: Replica, b: Replica, e: Entry)
    requires Dominates(a, e) && a.watermark == b.watermark && NotOlder(a.entries, b.entries, e.path)
    ensures Dominates(b, e)
  {
    if e.path in a.entries && e.version.AtMost(a.entries[e.path].version) {
      VersionTransitive(e.version, a.entries[e.path].version, b.entries[e.path].version);
    }
  }

  /** After any sequence of offers the replica dominates every entry offered. */
  lemma {:induction false} OfferAllDominates(l: Log, es: seq<Entry>, e: Entry)
    requires RepOk(l.rep) && e in es
    ensures Dominates(OfferAll(l, es).rep, e)
    decreases |es|
  {
    var m := Offer(l, es[0]);
    OfferOk(l, es[0]);
    if e == es[0] {
      OfferDominates(l, e);
      OfferAllNotOlder(m, es[1..], e.path);
      DominationKept(m.rep, OfferAll(l, es).rep, e);
    } else {
      OfferAllDominates(m, es[1..], e);
    }
  }

  /** Offering what is dominated changes nothing. */
  lemma {:induction false} OfferAllIdle(l: Log, es: seq<Entry>)
    requires forall e :: e in es ==> Dominates(l.rep, e)
    ensures OfferAll(l, es) == l
    decreases |es|
  {
    if es != [] {
      AcceptIffNotDominated(l.rep, es[0]);
      OfferAllIdle(l, es[1..]);
    }
  }

  /** Offers leave the index as it was exactly if all of them are dominated. */
  lemma OffersUntouched(l: Log, es: seq<Entry>)
    requires RepOk(l.rep)
    ensures OfferAll(l, es).rep.entries == l.rep.entries <==> forall e :: e in es ==> Dominates(l.rep, e)
  {
    if forall e :: e in es ==> Dominates(l.rep, e) {
      OfferAllIdle(l, es);
    } else {
      var e :| e in es && !Dominates(l.rep, e);
      OfferAllDominates(l, es, e);
      OfferAllNotOlder(l, es, e.path);
    }
  }

  // ---------- pulls that tombstone nothing ----------

  /** No entry that would be taken, other than a directory, lies above something
      live that is stored or would be taken. */
  ghost predicate Quiet(l: Log, es: seq<Entry>) {
    forall e, q :: e in es && e.kind != Dir && ShouldAccept(l.rep, e) && Below(q, e.path) ==> StaysDead(l, es, q)
  }

  /** Nothing live is at `q`, or would be accepted there. */
  ghost predicate StaysDead(l: Log, es: seq<Entry>, q: Text) {
    && (q in l.rep.entries ==> !Live(l.rep.entries[q]))
    && (forall f :: f in es && f.path == q && Live(f) ==> !ShouldAccept(l.rep, f))
  }

  lemma {:induction false} TombstoneAllIdle(l: Log, ps: seq<Text>)
    requires forall p :: p in ps && p in l.rep.entries ==> !Live(l.rep.entries[p])
    ensures TombstoneAll(l, ps) == l
    decreases |ps|
  {
    if ps != [] { TombstoneAllIdle(l, ps[1..]); }
  }

  lemma QuietAccept(l: Log, es: seq<Entry>, e: Entry)
    requires Quiet(l, es) && e in es && ShouldAccept(l.rep, e)
    ensures Accept(l, e) == Store(l, e)
  {
    if e.kind != Dir {
      var m := Store(l, e);
      forall q | q in StrictlyBelow(m.rep.entries, e.path) ensures !Live(m.rep.entries[q]) {
        assert Below(q, e.path) && StaysDead(l, es, q);
        assert |q| > |e.path|;
      }
      TombstoneAllIdle(m, StrictlyBelow(m.rep.entries, e.path));
    }
  }

  /** `out` is the least index at or above `base` and every entry of `es`. */
  ghost predicate IsJoin(base: Index, es: seq<Entry>, out: Index) {
    && (forall p {:trigger NotOlder(base, out, p)} :: NotOlder(base, out, p))
    && (forall e :: e in es ==> e.path in out && e.version.AtMost(out[e.path].version))
    && (forall p :: p in out ==> (p in base && out[p] == base[p]) || (out[p] in es && out[p].path == p))
  }

  /** Equal versions at a path mean equal entries. */
  ghost predicate Agree(base: Index, es: seq<Entry>) {
    && (forall e, f :: e in es && f in es && e.path == f.path && e.version == f.version ==> e == f)
    && (forall e :: e in es && e.path in base && base[e.path].version == e.version ==> base[e.path] == e)
  }

  lemma AtMostAntisymmetric(a: Version, b: Version)
    requires a.AtMost(b) && b.AtMost(a)
    ensures a == b
  {
    VersionTotal(a, b);
  }

  lemma JoinBelow(base: Index, es: seq<Entry>, x: Index, y: Index, p: Text)
    requires IsJoin(base, es, x) && IsJoin(base, es, y) && p in x
    ensures p in y && x[p].version.AtMost(y[p].version)
  {
    assert NotOlder(base, y, p);
  }

  lemma JoinUnique(base: Index, es: seq<Entry>, x: Index, y: Index)
    requires Agree(base, es) && IsJoin(base, es, x) && IsJoin(base, es, y)
    ensures x == y
  {
    forall p | p in x ensures p in y && x[p] == y[p] {
      JoinBelow(base, es, x, y, p);
      JoinBelow(base, es, y, x, p);
      AtMostAntisymmetric(x[p].version, y[p].version);
    }
    forall p | p in y ensures p in x { JoinBelow(base, es, y, x, p); }
    assert x.Keys == y.Keys;
  }

  /** Every entry of `es` could be taken by a replica that holds nothing. */
  ghost predicate Admissible(r: Replica, es: seq<Entry>) {
    forall e :: e in es ==> ValidRemotePath(e.path) && !DeadTombstone(r.watermark, e)
  }

  lemma AcceptOnce(l: Log, m: Log, e: Entry)
    requires m.rep.watermark == l.rep.watermark && NotOlder(l.rep.entries, m.rep.entries, e.path)
    requires ShouldAccept(m.rep, e)
    ensures ShouldAccept(l.rep, e)
  {
    AcceptIffNotDominated(l.rep, e);
    AcceptIffNotDominated(m.rep, e);
    if Dominates(l.rep, e) { DominationKept(l.rep, m.rep, e); }
  }

  lemma QuietStep(l: Log, es: seq<Entry>)
    requires RepOk(l.rep) && es != [] && Quiet(l, es)
    ensures Quiet(Offer(l, es[0]), es[1..])
  {
    var m := Offer(l, es[0]);
    if ShouldAccept(l.rep, es[0]) { QuietAccept(l, es, es[0]); }
    forall e, q | e in es[1..] && e.kind != Dir && ShouldAccept(m.rep, e) && Below(q, e.path)
      ensures StaysDead(m, es[1..], q)
    {
      OfferNotOlder(l, es[0], e.path);
      AcceptOnce(l, m, e);
      assert es[0] in es && e in es && StaysDead(l, es, q);
      forall f | f in es[1..] && f.path == q && Live(f) ensures !ShouldAccept(m.rep, f) {
        OfferNotOlder(l, es[0], q);
        if ShouldAccept(m.rep, f) { AcceptOnce(l, m, f); }
      }
    }
  }

  /** A quiet pull leaves the pointwise version maximum, and a clock that is the
      maximum of the old one and the offered ones. */
  lemma {:induction false} QuietPull(l: Log, es: seq<Entry>)
    requires RepOk(l.rep) && Quiet(l, es) && Admissible(l.rep, es)
    ensures IsJoin(l.rep.entries, es, OfferAll(l, es).rep.entries)
    ensures l.rep.lamport <= OfferAll(l, es).rep.lamport
    ensures forall e :: e in es ==> e.version.lamport <= OfferAll(l, es).rep.lamport
    ensures OfferAll(l, es).rep.lamport == l.rep.lamport
         || exists e :: e in es && e.version.lamport == OfferAll(l, es).rep.lamport
    decreases |es|
  {
    if es == [] {
      forall p ensures NotOlder(l.rep.entries, l.rep.entries, p) {}
    } else {
      var m, r := Offer(l, es[0]), OfferAll(l, es);
      OfferOk(l, es[0]);
      QuietStep(l, es);
      if ShouldAccept(l.rep, es[0]) { QuietAccept(l, es, es[0]); }
      QuietPull(m, es[1..]);
      OfferDominates(l, es[0]);
      forall p ensures NotOlder(l.rep.entries, r.rep.entries, p) {
        OfferNotOlder(l, es[0], p);
        assert NotOlder(m.rep.entries, r.rep.entries, p);
        NotOlderTransitive(l.rep.entries, m.rep.entries, r.rep.entries, p);
      }
      forall e | e in es
        ensures e.path in r.rep.entries && e.version.AtMost(r.rep.entries[e.path].version)
        ensures e.version.lamport <= r.rep.lamport
      {
        if e == es[0] {
          assert NotOlder(m.rep.entries, r.rep.entries, e.path);
          VersionTransitive(e.version, m.rep.entries[e.path].version, r.rep.entries[e.path].version);
        } else {
          assert e in es[1..];
        }
      }
    }
  }

  ghost predicate SameElements(es: seq<Entry>, fs: seq<Entry>) {
    forall e :: e in es <==> e in fs
  }

  lemma QuietSame(l: Log, es: seq<Entry>, fs: seq<Entry>)
    requires SameElements(es, fs) && Quiet(l, es)
    ensures Quiet(l, fs)
  {
    forall e, q | e in fs && e.kind != Dir && ShouldAccept(l.rep, e) && Below(q, e.path) ensures StaysDead(l, fs, q) {
      assert e in es && StaysDead(l, es, q);
      forall f | f in fs && f.path == q && Live(f) ensures !ShouldAccept(l.rep, f) { assert f in es; }
    }
  }

  lemma JoinSame(base: Index, es: seq<Entry>, fs: seq<Entry>, out: Index)
    requires SameElements(es, fs) && IsJoin(base, fs, out)
    ensures IsJoin(base, es, out)
  {
    forall p ensures NotOlder(base, out, p) { assert NotOlder(base, out, p); }
  }

  /** A quiet pull does not depend on the order of the entries. */
  lemma QuietPullOrder(l: Log, es: seq<Entry>, fs: seq<Entry>)
    requires RepOk(l.rep) && Quiet(l, es) && Admissible(l.rep, es) && Agree(l.rep.entries, es)
    requires SameElements(es, fs)
    ensures OfferAll(l, es).rep == OfferAll(l, fs).rep
  {
    var x, y := OfferAll(l, es).rep, OfferAll(l, fs).rep;
    QuietSame(l, es, fs);
    assert Admissible(l.rep, fs);
    QuietPull(l, es);
    QuietPull(l, fs);
    JoinSame(l.rep.entries, es, fs, y.entries);
    JoinUnique(l.rep.entries, es, x.entries, y.entries);
    OfferAllNotOlder(l, es, []);
    OfferAllNotOlder(l, fs, []);
  }

  /** One entry leaves the version maximum exactly when it does not, as a
      non-directory, land above something live. */
  lemma OfferIsMaximumIff(l: Log, e: Entry)
    requires RepOk(l.rep) && Admissible(l.rep, [e])
    ensures IsJoin(l.rep.entries, [e], Offer(l, e).rep.entries) <==>
      !(ShouldAccept(l.rep, e) && e.kind != Dir
        && exists q :: q in l.rep.entries && Live(l.rep.entries[q]) && Below(q, e.path))
  {
    if q :|
      && ShouldAccept(l.rep, e) && e.kind != Dir
      && q in l.rep.entries && Live(l.rep.entries[q]) && Below(q, e.path)
    {
      OfferBuries(l, e, q);
    } else {
      QuietOne(l, e);
      assert OfferAll(l, [e]) == Offer(l, e);
      QuietPull(l, [e]);
    }
  }

  /** Something live below an accepted non-directory is not what a maximum would leave. */
  lemma OfferBuries(l: Log, e: Entry, q: Text)
    requires ShouldAccept(l.rep, e) && e.kind != Dir
    requires q in l.rep.entries && Live(l.rep.entries[q]) && Below(q, e.path)
    ensures !IsJoin(l.rep.entries, [e], Offer(l, e).rep.entries)
  {
    var s := Store(l, e);
    assert |q| > |e.path|;
    assert s.rep.entries[q] == l.rep.entries[q];
    TombstoneAllBuries(s, StrictlyBelow(s.rep.entries, e.path), q);
    assert Offer(l, e).rep.entries[q].kind == Tombstone;
    assert [e][0].path != q;
  }

  lemma QuietOne(l: Log, e: Entry)
    requires !(ShouldAccept(l.rep, e) && e.kind != Dir
      && exists q :: q in l.rep.entries && Live(l.rep.entries[q]) && Below(q, e.path))
    ensures Quiet(l, [e])
  {
    forall q | e.kind != Dir && ShouldAccept(l.rep, e) && Below(q, e.path) ensures StaysDead(l, [e], q) {
      assert |q| > |e.path|;
    }
  }

  /** Every path on the list ends up absent or a tombstone. */
  lemma {:induction false} TombstoneAllBuries(l: Log, ps: seq<Text>, p: Text)
    ensures p in l.rep.entries <==> p in TombstoneAll(l, ps).rep.entries
    ensures p in l.rep.entries && (p in ps || !Live(l.rep.entries[p])) ==>
      !Live(TombstoneAll(l, ps).rep.entries[p])
    ensures p in l.rep.entries && p !in ps ==> TombstoneAll(l, ps).rep.entries[p] == l.rep.entries[p]
    decreases |ps|
  {
    if ps != [] { TombstoneAllBuries(TombstoneOne(l, ps[0]), ps[1..], p); }
  }

  /** What is left of something buried: no content, its old mode, and a version of the node's
      own that is beyond its clock. */
  lemma {:induction false} BuriedAs(l: Log, ps: seq<Text>, p: Text)
    requires p in ps && p in l.rep.entries && Live(l.rep.entries[p])
    ensures p in TombstoneAll(l, ps).rep.entries
    ensures
      var grave := TombstoneAll(l, ps).rep.entries[p];
      && grave == Entry(p, Tombstone, None, None, 0, l.rep.entries[p].mode, grave.version)
      && grave.version.origin == l.rep.origin && l.rep.lamport < grave.version.lamport
    decreases |ps|
  {
    var m := TombstoneOne(l, ps[0]);
    if ps[0] == p {
      TombstoneAllBuries(m, ps[1..], p);
      StaysBuried(m, ps[1..], p);
    } else {
      BuriedAs(m, ps[1..], p);
    }
  }

  lemma {:induction false} StaysBuried(l: Log, ps: seq<Text>, p: Text)
    requires p in l.rep.entries && !Live(l.rep.entries[p])
    ensures p in TombstoneAll(l, ps).rep.entries && TombstoneAll(l, ps).rep.entries[p] == l.rep.entries[p]
    decreases |ps|
  {
    if ps != [] { StaysBuried(TombstoneOne(l, ps[0]), ps[1..], p); }
  }

  /** An accepted entry is stored as it came; what lies below it stays if it is a directory
      and is dead otherwise; nothing else changes. */
  lemma AcceptReplaces(l: Log, e: Entry, q: Text)
    ensures q == e.path ==> q in Accept(l, e).rep.entries && Accept(l, e).rep.entries[q] == e
    ensures e.kind != Dir && Below(q, e.path) && q in Accept(l, e).rep.entries ==> !Live(Accept(l, e).rep.entries[q])
    ensures q != e.path && (e.kind == Dir || !Below(q, e.path)) ==> SameAt(l.rep.entries, Accept(l, e).rep.entries, q)
  {
    var s := Store(l, e);
    if e.kind != Dir {
      assert !Below(e.path, e.path);
      TombstoneAllBuries(s, StrictlyBelow(s.rep.entries, e.path), q);
    }
  }

  /** When a path has gone from disk, it and everything below it is dead; nothing else changes. */
  lemma RemoveBuries(l: Log, p: Text, q: Text)
    ensures (q == p || Below(q, p)) && q in Remove(l, p).rep.entries ==> !Live(Remove(l, p).rep.entries[q])
    ensures q != p && !Below(q, p) ==> SameAt(l.rep.entries, Remove(l, p).rep.entries, q)
  {
    TombstoneAllBuries(l, AtOrBelow(l.rep.entries, p), q);
  }

  // ---------- two opposite pulls ----------

  /** `es` lists exactly the entries of `idx`. */
  ghost predicate Lists(es: seq<Entry>, idx: Index) {
    && (forall e :: e in es ==> e.path in idx && idx[e.path] == e)
    && (forall p :: p in idx ==> idx[p] in es)
  }

  /** Equal versions at a path of both indices mean equal entries. */
  ghost predicate AgreeOn(a: Index, b: Index) {
    forall p :: p in a && p in b && a[p].version == b[p].version ==> a[p] == b[p]
  }

  /** Every path of an index could be exchanged. */
  ghost predicate ValidPaths(idx: Index) {
    forall p :: p in idx ==> ValidRemotePath(p)
  }

  /** A replica that already dominates the other side is copied exactly by a quiet pull. */
  lemma QuietCopy(b: Log, top: Replica, es: seq<Entry>)
    requires RepOk(b.rep) && RepOk(top) && b.rep.watermark == top.watermark
    requires Lists(es, top.entries) && ValidPaths(top.entries) && AgreeOn(b.rep.entries, top.entries)
    requires forall p :: NotOlder(b.rep.entries, top.entries, p)
    requires Quiet(b, es)
    ensures OfferAll(b, es).rep.entries == top.entries
  {
    QuietPull(b, es);
    forall p ensures NotOlder(b.rep.entries, top.entries, p) {}
    assert IsJoin(b.rep.entries, es, top.entries);
    assert Agree(b.rep.entries, es);
    JoinUnique(b.rep.entries, es, OfferAll(b, es).rep.entries, top.entries);
  }

  /** What a pull leaves comes from one side, or was issued during the pull. */
  ghost predicate FromEither(l: Log, es: seq<Entry>, r: Replica, p: Text)
    requires p in r.entries
  {
    || (p in l.rep.entries && r.entries[p] == l.rep.entries[p])
    || (r.entries[p] in es && r.entries[p].path == p)
    || (r.entries[p].version.origin == l.rep.origin && r.entries[p].version.lamport > l.rep.lamport)
  }

  lemma {:induction false} PullSources(l: Log, es: seq<Entry>, p: Text)
    requires RepOk(l.rep) && p in OfferAll(l, es).rep.entries
    ensures FromEither(l, es, OfferAll(l, es).rep, p)
    ensures l.rep.lamport <= OfferAll(l, es).rep.lamport
    decreases |es|
  {
    if es != [] {
      var m, r := Offer(l, es[0]), OfferAll(l, es);
      OfferOk(l, es[0]);
      PullSources(m, es[1..], p);
      if ShouldAccept(l.rep, es[0]) {
        AcceptGrows(l, es[0]);
        if p in m.rep.entries {
          var s := Store(l, es[0]);
          assert OldOrIssued(s, m, p);
          if k :| |s.changes| <= k < |m.changes| && m.changes[k].path == p && m.changes[k].next == m.rep.entries[p] {
            assert Issued(s, m, k);
          }
        }
      }
    }
  }

  /** B knows no version of A's beyond A's own clock. */
  ghost predicate NotAhead(b: Replica, a: Replica) {
    forall p :: p in b.entries && b.entries[p].version.origin == a.origin ==> b.entries[p].version.lamport <= a.lamport
  }

  lemma PullAgrees(a: Log, b: Replica, es: seq<Entry>)
    requires RepOk(a.rep) && RepOk(b) && Lists(es, b.entries)
    requires AgreeOn(a.rep.entries, b.entries) && NotAhead(b, a.rep)
    ensures AgreeOn(b.entries, OfferAll(a, es).rep.entries)
  {
    var top := OfferAll(a, es).rep;
    forall p | p in b.entries && p in top.entries && b.entries[p].version == top.entries[p].version
      ensures b.entries[p] == top.entries[p]
    {
      PullSources(a, es, p);
    }
  }

  /** A pulls from B and then B pulls from A. Deletions that cascade during the first
      pull are allowed; if the second pull is quiet, both end with the same index. */
  lemma TwoPulls(a: Log, b: Log, es: seq<Entry>, fs: seq<Entry>)
    requires RepOk(a.rep) && RepOk(b.rep) && a.rep.watermark == b.rep.watermark
    requires Lists(es, b.rep.entries) && ValidPaths(b.rep.entries) && ValidPaths(OfferAll(a, es).rep.entries)
    requires AgreeOn(a.rep.entries, b.rep.entries) && NotAhead(b.rep, a.rep)
    requires Lists(fs, OfferAll(a, es).rep.entries) && Quiet(b, fs)
    ensures OfferAll(b, fs).rep.entries == OfferAll(a, es).rep.entries
  {
    var top := OfferAll(a, es).rep;
    OfferAllNotOlder(a, es, []);
    PullAgrees(a, b.rep, es);
    forall p ensures NotOlder(b.rep.entries, top.entries, p) {
      if p in b.rep.entries {
        OfferAllDominates(a, es, b.rep.entries[p]);
      }
    }
    QuietCopy(b, top, fs);
  }

  /** If the first pull is quiet too, that index is the pointwise version maximum. */
  lemma TwoQuietPulls(a: Log, b: Log, es: seq<Entry>, fs: seq<Entry>)
    requires RepOk(a.rep) && RepOk(b.rep) && a.rep.watermark == b.rep.watermark
    requires Lists(es, b.rep.entries) && ValidPaths(b.rep.entries) && ValidPaths(a.rep.entries)
    requires AgreeOn(a.rep.entries, b.rep.entries) && NotAhead(b.rep, a.rep)
    requires Quiet(a, es)
    requires Lists(fs, OfferAll(a, es).rep.entries) && Quiet(b, fs)
    ensures OfferAll(b, fs).rep.entries == OfferAll(a, es).rep.entries
    ensures IsJoin(a.rep.entries, es, OfferAll(b, fs).rep.entries)
  {
    QuietPull(a, es);
    var top := OfferAll(a, es).rep;
    forall p | p in top.entries ensures ValidRemotePath(p) {}
    TwoPulls(a, b, es, fs);
  }
}
