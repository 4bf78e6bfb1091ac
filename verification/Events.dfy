/** What filesystem events achieve (src/state.rs `apply_paths`): afterwards the index says what
    the disk showed at their paths, and nothing else has moved. */
module Events {
  import opened Bytes
  import opened Paths
  import opened Entries
  import opened Tree
  import opened Ignore
  import opened Replicas
  import opened ReplicaFacts
  import opened Convergence
  import opened Rescans

  /** What looking at a real path can show: a leaf that is alive and no directory; or a
      directory, with everything scanned below it filed in scanned directories. */
  ghost predicate RealEvent(ev: Event) {
    && EventOk(ev)
    && match ev
       case Leaf(e) => e.kind == File || e.kind == Symlink
       case Folder(d, contents) =>
         && d.kind == Dir
         && forall q :: q in contents ==>
              && Live(contents[q]) && Below(q, d.path)
              && (Parent(q) == d.path || (Parent(q) in contents && contents[Parent(q)].kind == Dir))
       case _ => true
  }

  /** The index says at `q` what the event showed there. */
  ghost predicate Reflects(idx: Index, ev: Event, q: Text) {
    match ev
    case Gone(p) => (q == p || Below(q, p)) && q in idx ==> !Live(idx[q])
    case Leaf(e) => q == e.path ==> Filed(idx, e)
    case Folder(d, contents) => (q == d.path ==> Filed(idx, d)) && (q in contents ==> Filed(idx, contents[q]))
    case Skipped(_) => true
  }

  /** The event can have changed what the index has at `q`. */
  ghost predicate Touches(ev: Event, rules: seq<Rule>, q: Text) {
    && !ShouldIgnore(EventPath(ev), rules)
    && match ev
       case Gone(p) => q == p || Below(q, p)
       case Leaf(e) => q == e.path || Below(q, e.path)
       case Folder(d, contents) =>
         q == d.path || q in contents || exists x :: x in contents && contents[x].kind != Dir && Below(q, x)
       case Skipped(_) => false
  }

  // ---------- one event ----------

  /** In a scanned directory nothing lies below what is no directory. */
  lemma {:induction false} AboveContents(d: Entry, contents: Index, p: Text, a: Text)
    requires RealEvent(Folder(d, contents)) && p in contents && a in contents && p != a && AtOrUnder(p, a)
    ensures contents[a].kind == Dir
    decreases |p|
  {
    if Parent(p) != a {
      BelowIsUnder(a, d.path);
      if Parent(p) == d.path {
        AtOrUnderLonger(d.path, a);
        AtOrUnderLonger(a, d.path);
      } else {
        AboveContents(d, contents, Parent(p), a);
      }
    }
  }

  lemma {:induction false} ContentsSeen(l: Log, d: Entry, contents: Index, es: seq<Entry>, q: Text)
    requires RealEvent(Folder(d, contents)) && q in contents
    requires forall e :: e in es ==> e.path in contents && contents[e.path] == e
    requires contents[q] in es || Filed(l.rep.entries, contents[q])
    ensures Filed(ObserveAll(l, es).rep.entries, contents[q])
    decreases |es|
  {
    if es != [] {
      var e := es[0];
      if e.path == q {
        ObserveSelf(l, e);
      } else {
        BelowIsUnder(q, e.path);
        if Below(q, e.path) { AboveContents(d, contents, q, e.path); }
        ObserveFrame(l, e, q);
      }
      ContentsSeen(Observe(l, e), d, contents, es[1..], q);
    }
  }

  /** Observing some paths leaves all others alone, unless they lie below one that is no
      directory. */
  lemma {:induction false} ContentsFrame(l: Log, contents: Index, es: seq<Entry>, q: Text)
    requires forall e :: e in es ==> e.path in contents && contents[e.path] == e
    requires q !in contents && forall x :: x in contents && contents[x].kind != Dir ==> !Below(q, x)
    ensures SameAt(l.rep.entries, ObserveAll(l, es).rep.entries, q)
    decreases |es|
  {
    if es != [] {
      ObserveFrame(l, es[0], q);
      ContentsFrame(Observe(l, es[0]), contents, es[1..], q);
    }
  }

  lemma FolderReflected(l: Log, d: Entry, contents: Index, q: Text)
    requires RealEvent(Folder(d, contents))
    ensures Reflects(ObserveAll(Observe(l, d), Listed(contents)).rep.entries, Folder(d, contents), q)
  {
    var m := Observe(l, d);
    ListedClean(contents);
    if q == d.path {
      ObserveSelf(l, d);
      assert !Below(q, q);
      forall x | x in contents ensures !Below(q, x) { assert |q| < |x|; }
      ContentsFrame(m, contents, Listed(contents), q);
    } else if q in contents {
      ListedAll(contents, q);
      ContentsSeen(m, d, contents, Listed(contents), q);
    }
  }

  /** After an event at a path that is not ignored, the index says what the event showed. */
  lemma EventReflected(l: Log, ev: Event, rules: seq<Rule>, q: Text)
    requires RealEvent(ev) && !ShouldIgnore(EventPath(ev), rules)
    ensures Reflects(ApplyEvent(l, ev, rules).rep.entries, ev, q)
  {
    match ev {
      case Gone(p) => RemoveBuries(l, p, q);
      case Leaf(e) => ObserveSelf(l, e);
      case Folder(d, contents) => FolderReflected(l, d, contents, q);
      case Skipped(_) =>
    }
  }

  /** An event leaves alone what it does not touch; an ignored one leaves everything alone. */
  lemma EventFrame(l: Log, ev: Event, rules: seq<Rule>, q: Text)
    requires RealEvent(ev) && !Touches(ev, rules, q)
    ensures SameAt(l.rep.entries, ApplyEvent(l, ev, rules).rep.entries, q)
  {
    if !ShouldIgnore(EventPath(ev), rules) {
      match ev {
        case Gone(p) => RemoveBuries(l, p, q);
        case Leaf(e) => ObserveFrame(l, e, q);
        case Folder(d, contents) =>
          ListedClean(contents);
          ObserveFrame(l, d, q);
          ContentsFrame(Observe(l, d), contents, Listed(contents), q);
        case Skipped(_) =>
      }
    }
  }

  /** Below a leaf only what was in a directory it has replaced is affected, and that is dead. */
  lemma LeafBelow(l: Log, e: Entry, rules: seq<Rule>, q: Text)
    requires RealEvent(Leaf(e)) && Below(q, e.path) && !ShouldIgnore(e.path, rules)
    ensures
      var idx := ApplyEvent(l, Leaf(e), rules).rep.entries;
      if Displaces(l.rep.entries, e) then q in idx ==> !Live(idx[q]) else SameAt(l.rep.entries, idx, q)
  {
    assert |q| > |e.path|;
    if Displaces(l.rep.entries, e) { ObserveBuries(l, e, q); } else { ObserveFrame(l, e, q); }
  }

  /** An event that shows what the index says already changes nothing. */
  lemma EventIdle(l: Log, ev: Event, rules: seq<Rule>)
    requires RealEvent(ev) && forall q :: Reflects(l.rep.entries, ev, q)
    ensures ApplyEvent(l, ev, rules) == l
  {
    match ev {
      case Gone(p) =>
        var ps := AtOrBelow(l.rep.entries, p);
        forall q | q in ps && q in l.rep.entries ensures !Live(l.rep.entries[q]) {
          assert Reflects(l.rep.entries, ev, q);
        }
        TombstoneAllIdle(l, ps);
      case Leaf(e) =>
        assert Reflects(l.rep.entries, ev, e.path);
        ObserveNotices(l, e);
      case Folder(d, contents) =>
        assert Reflects(l.rep.entries, ev, d.path);
        ObserveNotices(l, d);
        ListedClean(contents);
        forall e | e in Listed(contents) ensures Filed(l.rep.entries, e) {
          assert Reflects(l.rep.entries, ev, e.path);
        }
        ObserveAllIdle(l, Listed(contents));
      case Skipped(_) =>
    }
  }

  // ---------- lists of events ----------

  ghost predicate RealEvents(evs: seq<Event>) {
    forall ev :: ev in evs ==> RealEvent(ev)
  }

  /** No event from position `i` on touches `q`. */
  ghost predicate LeftAlone(evs: seq<Event>, rules: seq<Rule>, i: nat, q: Text) {
    forall j :: i <= j < |evs| ==> !Touches(evs[j], rules, q)
  }

  lemma LeftAloneTail(evs: seq<Event>, rules: seq<Rule>, i: nat, q: Text)
    requires evs != [] && LeftAlone(evs, rules, i + 1, q)
    ensures LeftAlone(evs[1..], rules, i, q)
  {
    forall j | i <= j < |evs[1..]| ensures !Touches(evs[1..][j], rules, q) { assert evs[1..][j] == evs[j + 1]; }
  }

  lemma RealTail(evs: seq<Event>)
    requires evs != [] && RealEvents(evs)
    ensures RealEvent(evs[0]) && RealEvents(evs[1..])
  {
    assert evs[0] in evs;
  }

  /** What no event touches stays as it was. */
  lemma {:induction false} EventsFrame(l: Log, evs: seq<Event>, rules: seq<Rule>, q: Text)
    requires RealEvents(evs) && LeftAlone(evs, rules, 0, q)
    ensures SameAt(l.rep.entries, ApplyEvents(l, evs, rules).rep.entries, q)
    decreases |evs|
  {
    if evs != [] {
      RealTail(evs);
      EventFrame(l, evs[0], rules, q);
      LeftAloneTail(evs, rules, 0, q);
      EventsFrame(ApplyEvent(l, evs[0], rules), evs[1..], rules, q);
    }
  }

  lemma {:induction false} EventsSplit(l: Log, evs: seq<Event>, rules: seq<Rule>, i: nat)
    requires i <= |evs|
    ensures ApplyEvents(l, evs, rules) == ApplyEvents(ApplyEvents(l, evs[..i], rules), evs[i..], rules)
    decreases i
  {
    if i == 0 {
      assert evs[..0] == [] && evs[0..] == evs;
    } else {
      EventsSplit(ApplyEvent(l, evs[0], rules), evs[1..], rules, i - 1);
      assert evs[..i][1..] == evs[1..][..i - 1] && evs[1..][i - 1..] == evs[i..];
    }
  }

  lemma ReflectsKept(a: Index, b: Index, ev: Event, q: Text)
    requires Reflects(a, ev, q) && SameAt(a, b, q) && EventOk(ev)
    ensures Reflects(b, ev, q)
  {
  }

  /** What an event showed, the index says in the end, unless a later event touches it. */
  lemma EventsReflected(l: Log, evs: seq<Event>, rules: seq<Rule>, i: nat, q: Text)
    requires RealEvents(evs) && i < |evs| && !ShouldIgnore(EventPath(evs[i]), rules)
    requires LeftAlone(evs, rules, i + 1, q)
    ensures Reflects(ApplyEvents(l, evs, rules).rep.entries, evs[i], q)
  {
    var before, later := ApplyEvents(l, evs[..i], rules), evs[i + 1..];
    var after := ApplyEvent(before, evs[i], rules);
    EventsSplit(l, evs, rules, i);
    assert evs[i..][0] == evs[i] && evs[i..][1..] == later;
    assert evs[i] in evs;
    EventReflected(before, evs[i], rules, q);
    forall j | 0 <= j < |later| ensures !Touches(later[j], rules, q) { assert later[j] == evs[j + i + 1]; }
    EventsFrame(after, later, rules, q);
    ReflectsKept(after.rep.entries, ApplyEvents(after, later, rules).rep.entries, evs[i], q);
  }

  // ---------- events that show one disk ----------

  /** What can be seen on a disk: nothing lies below what is no directory. */
  ghost predicate DiskOk(disk: Index) {
    IndexOk(disk) && forall p, q :: p in disk && q in disk && Below(q, p) ==> disk[p].kind == Dir
  }

  /** The event shows `disk`, or a part of it, where it looks. */
  ghost predicate ShownBy(disk: Index, ev: Event) {
    match ev
    case Gone(p) => forall q :: q in disk ==> q != p && !Below(q, p)
    case Leaf(e) => e.path in disk && disk[e.path] == e
    case Folder(d, contents) =>
      && d.path in disk && disk[d.path] == d
      && forall q :: q in contents ==> q in disk && disk[q] == contents[q]
    case Skipped(_) => true
  }

  /** The event tells what there is at `q`. */
  ghost predicate Tells(ev: Event, q: Text) {
    match ev
    case Gone(p) => q == p || Below(q, p)
    case Leaf(e) => q == e.path
    case Folder(d, contents) => q == d.path || q in contents
    case Skipped(_) => false
  }

  /** The index has at `q` what is on disk there, but for the version; a tombstone or nothing
      where the disk has nothing. */
  ghost predicate Says(idx: Index, disk: Index, q: Text) {
    if q in disk then Filed(idx, disk[q]) else q in idx ==> !Live(idx[q])
  }

  lemma ObserveSays(l: Log, disk: Index, e: Entry, q: Text)
    requires DiskOk(disk) && e.path in disk && disk[e.path] == e
    requires q == e.path || Says(l.rep.entries, disk, q)
    ensures Says(Observe(l, e).rep.entries, disk, q)
  {
    if q == e.path {
      ObserveSelf(l, e);
    } else if Displaces(l.rep.entries, e) && Below(q, e.path) {
      ObserveBuries(l, e, q);
    } else {
      ObserveFrame(l, e, q);
    }
  }

  lemma {:induction false} ObserveAllSays(l: Log, disk: Index, es: seq<Entry>, q: Text)
    requires DiskOk(disk) && forall e :: e in es ==> e.path in disk && disk[e.path] == e
    requires Says(l.rep.entries, disk, q) || exists e :: e in es && e.path == q
    ensures Says(ObserveAll(l, es).rep.entries, disk, q)
    decreases |es|
  {
    if es != [] {
      if es[0].path == q || Says(l.rep.entries, disk, q) { ObserveSays(l, disk, es[0], q); }
      ObserveAllSays(Observe(l, es[0]), disk, es[1..], q);
    }
  }

  lemma EventSays(l: Log, disk: Index, ev: Event, rules: seq<Rule>, q: Text)
    requires DiskOk(disk) && EventOk(ev) && ShownBy(disk, ev)
    requires Says(l.rep.entries, disk, q) || (Tells(ev, q) && !ShouldIgnore(EventPath(ev), rules))
    ensures Says(ApplyEvent(l, ev, rules).rep.entries, disk, q)
  {
    if !ShouldIgnore(EventPath(ev), rules) {
      match ev {
        case Gone(p) => RemoveBuries(l, p, q);
        case Leaf(e) => ObserveSays(l, disk, e, q);
        case Folder(d, contents) =>
          ListedClean(contents);
          if q in contents { ListedAll(contents, q); }
          if q == d.path || Says(l.rep.entries, disk, q) { ObserveSays(l, disk, d, q); }
          ObserveAllSays(Observe(l, d), disk, Listed(contents), q);
        case Skipped(_) =>
      }
    }
  }

  /** Events that all show the same disk leave the index saying what is there, wherever one of
      them looks and wherever it said so before. */
  lemma {:induction false} EventsSay(l: Log, disk: Index, evs: seq<Event>, rules: seq<Rule>, q: Text)
    requires DiskOk(disk) && forall ev :: ev in evs ==> EventOk(ev) && ShownBy(disk, ev)
    requires
      || Says(l.rep.entries, disk, q)
      || exists ev :: ev in evs && Tells(ev, q) && !ShouldIgnore(EventPath(ev), rules)
    ensures Says(ApplyEvents(l, evs, rules).rep.entries, disk, q)
    decreases |evs|
  {
    if evs != [] {
      var m := ApplyEvent(l, evs[0], rules);
      if Says(l.rep.entries, disk, q) || (Tells(evs[0], q) && !ShouldIgnore(EventPath(evs[0]), rules)) {
        EventSays(l, disk, evs[0], rules, q);
      }
      EventsSay(m, disk, evs[1..], rules, q);
    }
  }

  // ---------- `apply_paths` ----------

  ghost predicate AtRules(evs: seq<Event>) {
    exists ev :: ev in evs && EventPath(ev) == Ascii(".nolil")
  }

  /** An event for the rule file, wherever it stands, has the whole folder scanned again. */
  lemma RulesPathScans(l: Log, evs: seq<Event>, rules: seq<Rule>, scan: Scan, q: Text)
    requires ScanOk(scan) && AtRules(evs)
    ensures
      var idx := ApplyAll(l, evs, rules, scan).rep.entries;
      && (q in scan.found ==> Filed(idx, scan.found[q]))
      && (q in idx && q !in scan.found && q !in scan.unstable && !ShouldIgnore(q, scan.rules) ==> !Live(idx[q]))
  {
    var ev :| ev in evs && EventPath(ev) == Ascii(".nolil");
    var i :| 0 <= i < |evs| && evs[i] == ev;
    RescanFaithful(l, scan, q);
  }

  /** Without one, the index says what each event showed that no later one overrides, and
      stays as it was where there was no event. */
  lemma PathsReflected(l: Log, evs: seq<Event>, rules: seq<Rule>, scan: Scan, q: Text)
    requires RealEvents(evs) && !AtRules(evs)
    ensures LeftAlone(evs, rules, 0, q) ==> SameAt(l.rep.entries, ApplyAll(l, evs, rules, scan).rep.entries, q)
    ensures forall i ::
      0 <= i < |evs| && !ShouldIgnore(EventPath(evs[i]), rules) && LeftAlone(evs, rules, i + 1, q) ==>
        Reflects(ApplyAll(l, evs, rules, scan).rep.entries, evs[i], q)
  {
    assert ApplyAll(l, evs, rules, scan) == ApplyEvents(l, evs, rules);
    if LeftAlone(evs, rules, 0, q) { EventsFrame(l, evs, rules, q); }
    forall i | 0 <= i < |evs| && !ShouldIgnore(EventPath(evs[i]), rules) && LeftAlone(evs, rules, i + 1, q)
      ensures Reflects(ApplyAll(l, evs, rules, scan).rep.entries, evs[i], q)
    {
      EventsReflected(l, evs, rules, i, q);
    }
  }
}
