/** What may be replicated at all, said of the text itself: the built-in exclusions of
    src/ignore.rs, `validate_remote_path` of src/state.rs and `validate_symlink_target` of
    src/entries.rs. */
module Validation {
  import opened Bytes
  import opened Paths
  import opened Ignore
  import opened Replicas

  // ---------- components of a text ----------

  /** Putting a byte in front. */
  function Fronted(b: byte, sep: byte, cs: seq<Text>): seq<Text>
    requires cs != []
  {
    if b == sep then [[]] + cs else [[b] + cs[0]] + cs[1..]
  }

  lemma FrontedAppend(b: byte, sep: byte, cs: seq<Text>, ds: seq<Text>)
    requires cs != []
    ensures Fronted(b, sep, cs + ds) == Fronted(b, sep, cs) + ds
  {
  }

  lemma {:induction false} SplitAppend(a: Text, sep: byte, b: Text)
    ensures Split(a + [sep] + b, sep) == Split(a, sep) + Split(b, sep)
    decreases |a|
  {
    var p := a + [sep] + b;
    if a == [] {
      assert p[1..] == b;
    } else {
      SplitAppend(a[1..], sep, b);
      assert p[1..] == a[1..] + [sep] + b;
      assert Split(p, sep) == Fronted(a[0], sep, Split(p[1..], sep));
      FrontedAppend(a[0], sep, Split(a[1..], sep), Split(b, sep));
    }
  }

  /** `c` stands in `t` between two separators or at the ends. */
  predicate Between(t: Text, sep: byte, a: Text, c: Text, b: Text) {
    t == a + c + b && sep !in c && (a == [] || a[|a| - 1] == sep) && (b == [] || b[0] == sep)
  }

  lemma InFront(sep: byte, c: Text, b: Text)
    requires sep !in c && (b == [] || b[0] == sep)
    ensures c in Split(c + b, sep)
  {
    if b == [] {
      assert c + b == c;
      SplitNone(c, sep);
    } else {
      assert c + b == c + [sep] + b[1..];
      SplitFirst(c, sep, b[1..]);
    }
  }

  lemma BetweenIsComponent(t: Text, sep: byte, a: Text, c: Text, b: Text)
    requires Between(t, sep, a, c, b)
    ensures c in Split(t, sep)
  {
    InFront(sep, c, b);
    if a == [] {
      assert t == c + b;
    } else {
      SplitAppend(a[..|a| - 1], sep, c + b);
      assert t == a[..|a| - 1] + [sep] + (c + b);
    }
  }

  lemma {:induction false} Around(cs: seq<Text>, sep: byte, i: nat) returns (a: Text, b: Text)
    requires i < |cs| && sep !in cs[i]
    ensures Between(JoinWith(cs, sep), sep, a, cs[i], b)
    decreases |cs|
  {
    if i == 0 {
      a, b := [], if |cs| == 1 then [] else [sep] + JoinWith(cs[1..], sep);
    } else {
      a, b := Around(cs[1..], sep, i - 1);
      a := cs[0] + [sep] + a;
    }
  }

  /** The components of a text are what stands between its separators. */
  lemma ComponentExactly(t: Text, sep: byte, c: Text)
    ensures c in Split(t, sep) <==> exists a, b :: Between(t, sep, a, c, b)
  {
    if i :| 0 <= i < |Split(t, sep)| && Split(t, sep)[i] == c {
      JoinSplit(t, sep);
      var a, b := Around(Split(t, sep), sep, i);
    }
    if a, b :| Between(t, sep, a, c, b) { BetweenIsComponent(t, sep, a, c, b); }
  }

  // ---------- names that are never replicated ----------

  const SYSTEM_NAMES := [Ascii(".lil"), Ascii(".DS_Store"), Ascii("Thumbs.db"), Ascii("Desktop.ini"),
                         Ascii(".Spotlight-V100"), Ascii(".Trashes"), Ascii(".fseventsd"),
                         Ascii("$RECYCLE.BIN"), Ascii("lost+found")]

  /** A name from the list above, or one that begins with "._". */
  predicate SystemName(c: Text) {
    c in SYSTEM_NAMES || Ascii("._") <= c
  }

  lemma IgnoredSystem(c: Text)
    ensures IgnoredName(c) <==> SystemName(c)
  {
  }

  lemma SystemLong(c: Text)
    requires SystemName(c)
    ensures |c| > 1
  {
  }

  /** Without rules a path is ignored exactly if a system name stands in it somewhere; the
      rule file itself never is, whatever the rules. */
  lemma BuiltInExactly(p: Text, rules: seq<Rule>)
    ensures ShouldIgnore(p, []) <==> exists a, c, b :: Between(p, SLASH, a, c, b) && SystemName(c)
    ensures ShouldIgnore(p, []) ==> ShouldIgnore(p, rules)
    ensures !ShouldIgnore(Ascii(".nolil"), rules)
  {
    if a, c, b :| Between(p, SLASH, a, c, b) && SystemName(c) {
      BetweenIsComponent(p, SLASH, a, c, b);
      IgnoredSystem(c);
      RuleFileFree();
      if p == Ascii(".nolil") { OneComponent(p, c); }
    }
    if ShouldIgnore(p, []) {
      var c :| c in Split(p, SLASH) && IgnoredName(c);
      ComponentExactly(p, SLASH, c);
      IgnoredSystem(c);
    }
  }

  lemma RuleFileFree()
    ensures !IgnoredName(Ascii(".nolil")) && SLASH !in Ascii(".nolil")
  {
    var p := Ascii(".nolil");
    assert |p| == 6 && p[1] != Ascii("._")[1];
  }

  lemma OneComponent(p: Text, c: Text)
    requires SLASH !in p && c in Split(p, SLASH)
    ensures c == p
  {
    SplitNone(p, SLASH);
  }

  // ---------- remote paths ----------

  /** A name a peer may use in a path. */
  predicate Ordinary(name: Text) {
    && name != [] && SLASH !in name && 0 !in name && BACKSLASH !in name
    && name != Ascii(".") && name != Ascii("..") && !SystemName(name)
  }

  ghost predicate MadeOf(p: Text, names: seq<Text>) {
    names != [] && (forall n :: n in names ==> Ordinary(n)) && p == JoinWith(names, SLASH)
  }

  lemma {:induction false} InJoined(cs: seq<Text>, sep: byte, x: byte)
    ensures x in JoinWith(cs, sep) ==> x == sep || exists c :: c in cs && x in c
    ensures (exists c :: c in cs && x in c) ==> x in JoinWith(cs, sep)
    decreases |cs|
  {
    if cs != [] {
      assert cs == [cs[0]] + cs[1..];
      InJoined(cs[1..], sep, x);
    }
  }

  lemma ComponentOrdinary(p: Text, c: Text)
    requires ValidRemotePath(p) && c in Split(p, SLASH)
    ensures Ordinary(c)
  {
    JoinSplit(p, SLASH);
    InJoined(Split(p, SLASH), SLASH, 0);
    InJoined(Split(p, SLASH), SLASH, BACKSLASH);
    IgnoredSystem(c);
    assert Ascii(".") == [DOT] && Ascii("..") == [DOT, DOT];
  }

  /** A path is accepted from a peer exactly if it is a non-empty list of ordinary names,
      joined by slashes. */
  lemma RemotePathExactly(p: Text)
    ensures ValidRemotePath(p) <==> exists names :: MadeOf(p, names)
  {
    if ValidRemotePath(p) {
      JoinSplit(p, SLASH);
      forall c | c in Split(p, SLASH) ensures Ordinary(c) { ComponentOrdinary(p, c); }
      assert MadeOf(p, Split(p, SLASH));
    }
    if names :| MadeOf(p, names) {
      SplitJoined(names, SLASH);
      InJoined(names, SLASH, 0);
      InJoined(names, SLASH, BACKSLASH);
      forall c | c in names ensures !IgnoredName(c) { IgnoredSystem(c); }
      assert p != [] by { assert names[0] in names; }
    }
  }

  /** What is accepted from a peer is nothing the node would not list itself. */
  lemma RemoteNotBuiltIn(p: Text)
    requires ValidRemotePath(p)
    ensures !ShouldIgnore(p, [])
  {
    if ShouldIgnore(p, []) {
      BuiltInExactly(p, []);
      var a, c, b :| Between(p, SLASH, a, c, b) && SystemName(c);
      BetweenIsComponent(p, SLASH, a, c, b);
      ComponentOrdinary(p, c);
    }
  }

  // ---------- symlink targets ----------

  /** A target is accepted exactly if it is relative, does not begin with a '.' component,
      has no '..' between slashes or at its ends, and no NUL or backslash. */
  lemma TargetExactly(t: Text)
    ensures ValidTarget(t) <==>
      && t != [] && 0 !in t && BACKSLASH !in t && t[0] != SLASH
      && t != Ascii(".") && !(Ascii("./") <= t)
      && !(exists a, b :: Between(t, SLASH, a, Ascii(".."), b))
  {
    assert Ascii(".") == [DOT] && Ascii("..") == [DOT, DOT] && Ascii("./") == [DOT] + [SLASH];
    ComponentExactly(t, SLASH, [DOT, DOT]);
    FirstComponent(t, [DOT]);
  }

  lemma FirstComponent(t: Text, c: Text)
    requires SLASH !in c
    ensures Split(t, SLASH)[0] == c <==> t == c || c + [SLASH] <= t
  {
    var cs := Split(t, SLASH);
    JoinSplit(t, SLASH);
    if t == c { SplitNone(c, SLASH); }
    if c + [SLASH] <= t {
      assert t == c + [SLASH] + t[|c| + 1..];
      SplitFirst(c, SLASH, t[|c| + 1..]);
    }
  }

  /** Where following `cs` leads from the directory `at`, by names alone. */
  function Follow(at: seq<Text>, cs: seq<Text>): seq<Text>
    decreases |cs|
  {
    if cs == [] then at
    else if cs[0] == [] || cs[0] == Ascii(".") then Follow(at, cs[1..])
    else if cs[0] == Ascii("..") then Follow(if at == [] then [] else at[..|at| - 1], cs[1..])
    else Follow(at + [cs[0]], cs[1..])
  }

  lemma {:induction false} FollowDown(at: seq<Text>, cs: seq<Text>)
    requires Ascii("..") !in cs
    ensures at <= Follow(at, cs)
    decreases |cs|
  {
    if cs != [] {
      if cs[0] == [] || cs[0] == Ascii(".") {
        FollowDown(at, cs[1..]);
      } else {
        FollowDown(at + [cs[0]], cs[1..]);
      }
    }
  }

  /** No prefix of an accepted target leads out of the directory the link is in. */
  lemma TargetStaysInside(t: Text, at: seq<Text>, n: nat)
    requires ValidTarget(t) && n <= |Split(t, SLASH)|
    ensures at <= Follow(at, Split(t, SLASH)[..n])
  {
    assert Ascii("..") == [DOT, DOT];
    FollowDown(at, Split(t, SLASH)[..n]);
  }
}
