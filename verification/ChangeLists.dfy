/** The lists of changes that the operations of src/state.rs return: played back they lead from
    the old index to the new one, each change says what was there before, and taken back one by
    one they give the old index again. */
module ChangeLists {
  import opened Bytes
  import opened Entries
  import opened Ignore
  import opened Replicas

  /** Each change is to what its predecessors have left, and the last one leaves `b`. */
  ghost predicate Replays(a: Index, cs: seq<Change>, b: Index)
    decreases |cs|
  {
    if cs == [] then a == b
    else cs[0].prev == Lookup(a, cs[0].path) && Replays(a[cs[0].path := cs[0].next], cs[1..], b)
  }

  /** The changes that `b` has and `a` has not lead from the one index to the other. */
  ghost predicate Told(a: Log, b: Log) {
    a.changes <= b.changes && Replays(a.rep.entries, b.changes[|a.changes|..], b.rep.entries)
  }

  /** The index before the last of the changes, before the one before that, and so on. */
  function TakenBack(b: Index, cs: seq<Change>): Index
    decreases |cs|
  {
    if cs == [] then b else
      var last := cs[|cs| - 1];
      TakenBack(if last.prev.Some? then b[last.path := last.prev.value] else b - {last.path}, cs[..|cs| - 1])
  }

  lemma {:induction false} ReplaysOn(a: Index, cs: seq<Change>, b: Index, ds: seq<Change>, c: Index)
    requires Replays(a, cs, b) && Replays(b, ds, c)
    ensures Replays(a, cs + ds, c)
    decreases |cs|
  {
    if cs == [] {
      assert cs + ds == ds;
    } else {
      assert (cs + ds)[0] == cs[0] && (cs + ds)[1..] == cs[1..] + ds;
      ReplaysOn(a[cs[0].path := cs[0].next], cs[1..], b, ds, c);
    }
  }

  lemma ToldTransitive(a: Log, b: Log, c: Log)
    requires Told(a, b) && Told(b, c)
    ensures Told(a, c)
  {
    ReplaysOn(a.rep.entries, b.changes[|a.changes|..], b.rep.entries, c.changes[|b.changes|..], c.rep.entries);
    assert c.changes[|a.changes|..] == b.changes[|a.changes|..] + c.changes[|b.changes|..];
  }

  lemma ToldReflexive(a: Log)
    ensures Told(a, a)
  {
    assert a.changes[|a.changes|..] == [];
  }

  /** One change, to the path of its entry. */
  lemma ToldOne(a: Log, b: Log, e: Entry)
    requires b.rep.entries == a.rep.entries[e.path := e]
    requires b.changes == a.changes + [Change(e.path, Lookup(a.rep.entries, e.path), e)]
    ensures Told(a, b)
  {
    var cs := b.changes[|a.changes|..];
    assert cs == [Change(e.path, Lookup(a.rep.entries, e.path), e)];
    assert cs[1..] == [];
  }

  // ---------- the operations ----------

  lemma MintTold(l: Log, e: Entry)
    ensures Told(l, Mint(l, e))
  {
    ToldOne(l, Mint(l, e), e.(version := NextVersion(l.rep)));
  }

  lemma {:induction false} TombstonesTold(l: Log, ps: seq<Text>)
    ensures Told(l, TombstoneAll(l, ps))
    decreases |ps|
  {
    if ps == [] {
      ToldReflexive(l);
    } else {
      var m := TombstoneOne(l, ps[0]);
      if m == l { ToldReflexive(l); } else {
        MintTold(l, TombstoneOf(ps[0], l.rep.entries[ps[0]], NextVersion(l.rep)));
      }
      TombstonesTold(m, ps[1..]);
      ToldTransitive(l, m, TombstoneAll(l, ps));
    }
  }

  lemma ObserveTold(l: Log, e: Entry)
    ensures Told(l, Observe(l, e))
  {
    var m := Mint(l, e);
    ToldReflexive(l);
    MintTold(l, e);
    TombstonesTold(m, StrictlyBelow(m.rep.entries, e.path));
    ToldTransitive(l, m, TombstoneBelow(m, e.path));
  }

  lemma {:induction false} ObserveAllTold(l: Log, es: seq<Entry>)
    ensures Told(l, ObserveAll(l, es))
    decreases |es|
  {
    if es == [] {
      ToldReflexive(l);
    } else {
      ObserveTold(l, es[0]);
      ObserveAllTold(Observe(l, es[0]), es[1..]);
      ToldTransitive(l, Observe(l, es[0]), ObserveAll(l, es));
    }
  }

  lemma RescanTold(l: Log, scan: Scan)
    ensures Told(l, Rescan(l, scan))
  {
    var seen := ObserveAll(l, Listed(scan.found));
    ObserveAllTold(l, Listed(scan.found));
    TombstonesTold(seen, Unseen(scan, Sorted(seen.rep.entries.Keys)));
    ToldTransitive(l, seen, Rescan(l, scan));
  }

  lemma EventTold(l: Log, ev: Event, rules: seq<Rule>)
    ensures Told(l, ApplyEvent(l, ev, rules))
  {
    ToldReflexive(l);
    match ev {
      case Gone(p) => TombstonesTold(l, AtOrBelow(l.rep.entries, p));
      case Leaf(e) => ObserveTold(l, e);
      case Folder(d, contents) =>
        var m := Observe(l, d);
        ObserveTold(l, d);
        ObserveAllTold(m, Listed(contents));
        ToldTransitive(l, m, ObserveAll(m, Listed(contents)));
      case Skipped(_) =>
    }
  }

  lemma {:induction false} EventsTold(l: Log, evs: seq<Event>, rules: seq<Rule>)
    ensures Told(l, ApplyEvents(l, evs, rules))
    decreases |evs|
  {
    if evs == [] {
      ToldReflexive(l);
    } else {
      EventTold(l, evs[0], rules);
      EventsTold(ApplyEvent(l, evs[0], rules), evs[1..], rules);
      ToldTransitive(l, ApplyEvent(l, evs[0], rules), ApplyEvents(l, evs, rules));
    }
  }

  lemma OfferTold(l: Log, e: Entry)
    ensures Told(l, Offer(l, e))
  {
    var s := Store(l, e);
    ToldReflexive(l);
    ToldOne(l, s, e);
    TombstonesTold(s, StrictlyBelow(s.rep.entries, e.path));
    ToldTransitive(l, s, TombstoneBelow(s, e.path));
  }

  lemma {:induction false} BatchTold(l: Log, batch: seq<Fetched>)
    ensures Told(l, ApplyBatch(l, batch).log)
    decreases |batch|
  {
    if batch == [] || ApplyOne(l, batch[0]).Err? {
      ToldReflexive(l);
    } else {
      OfferTold(l, batch[0].entry);
      BatchTold(Offer(l, batch[0].entry), batch[1..]);
      ToldTransitive(l, Offer(l, batch[0].entry), ApplyBatch(l, batch).log);
    }
  }

  // ---------- what the lists are good for ----------

  lemma {:induction false} TakenBackOne(a: Index, c: Change, cs: seq<Change>, b: Index)
    requires Replays(a[c.path := c.next], cs, b) && c.prev == Lookup(a, c.path)
    ensures TakenBack(b, [c] + cs) == a
    decreases |cs|
  {
    var all := [c] + cs;
    if cs == [] {
      assert all[..0] == [];
      assert (if c.prev.Some? then b[c.path := c.prev.value] else b - {c.path}) == a;
    } else {
      UndoLast(a[c.path := c.next], cs, b);
      var last := cs[|cs| - 1];
      var was := if last.prev.Some? then b[last.path := last.prev.value] else b - {last.path};
      assert all[..|all| - 1] == [c] + cs[..|cs| - 1];
      TakenBackOne(a, c, cs[..|cs| - 1], was);
    }
  }

  /** Without its last change a list leads to what that change says was there before. */
  lemma {:induction false} UndoLast(a: Index, cs: seq<Change>, b: Index)
    requires cs != [] && Replays(a, cs, b)
    ensures
      var last := cs[|cs| - 1];
      Replays(a, cs[..|cs| - 1], if last.prev.Some? then b[last.path := last.prev.value] else b - {last.path})
    decreases |cs|
  {
    var last := cs[|cs| - 1];
    var was := if last.prev.Some? then b[last.path := last.prev.value] else b - {last.path};
    if |cs| == 1 {
      assert cs[..0] == [] && was == a;
    } else {
      var next := a[cs[0].path := cs[0].next];
      UndoLast(next, cs[1..], b);
      assert cs[..|cs| - 1][1..] == cs[1..][..|cs| - 2];
    }
  }

  /** The changes of any operation, taken back, give the index it started from. */
  lemma Reversible(a: Log, b: Log)
    requires Told(a, b)
    ensures TakenBack(b.rep.entries, b.changes[|a.changes|..]) == a.rep.entries
  {
    var cs := b.changes[|a.changes|..];
    if cs != [] {
      assert cs == [cs[0]] + cs[1..];
      TakenBackOne(a.rep.entries, cs[0], cs[1..], b.rep.entries);
    }
  }

  /** A rescan, a list of events, and a batch, however far it gets, return such lists. */
  lemma ChangesTell(l: Log, scan: Scan, evs: seq<Event>, rules: seq<Rule>, batch: seq<Fetched>)
    ensures Told(l, Rescan(l, scan)) && Told(l, ApplyAll(l, evs, rules, scan)) && Told(l, ApplyBatch(l, batch).log)
  {
    RescanTold(l, scan);
    EventsTold(l, evs, rules);
    BatchTold(l, batch);
  }
}
