/** '/'-separated relative paths: the string helpers of src/tree.rs and the
    component checks of `validate_remote_path`. The empty string is the root. */
module Paths {
  import opened Bytes

  const SLASH: byte := 47
  const BACKSLASH: byte := 92
  const DOT: byte := 46

  /** Index of the last '/', or -1. */
  function LastSlash(p: Text): (i: int)
    ensures -1 <= i < |p|
    ensures 0 <= i ==> p[i] == SLASH
    ensures forall j :: i < j < |p| ==> p[j] != SLASH
  {
    if p == [] then -1
    else if p[|p| - 1] == SLASH then |p| - 1
    else LastSlash(p[..|p| - 1])
  }

  /** `parent_path`: everything before the last '/', or the root. */
  function Parent(p: Text): (r: Text)
    ensures p != [] ==> |r| < |p|
    ensures p == [] ==> r == []
  {
    var i := LastSlash(p);
    if i < 0 then [] else p[..i]
  }

  /** `basename`: everything after the last '/'. */
  function Base(p: Text): (r: Text)
    ensures SLASH !in r
    ensures |r| <= |p|
  {
    p[LastSlash(p) + 1..]
  }

  /** A path whose '/'-separated components are all non-empty. */
  predicate Clean(p: Text) {
    && p != []
    && p[0] != SLASH
    && p[|p| - 1] != SLASH
    && forall i :: 0 < i < |p| ==> p[i - 1] != SLASH || p[i] != SLASH
  }

  predicate CleanOrRoot(p: Text) {
    p == [] || Clean(p)
  }

  /** `join_path` on a prefix without surrounding slashes. */
  function Join(k: Text, name: Text): (r: Text)
    ensures |name| <= |r| && |k| <= |r|
  {
    if k == [] then name else k + [SLASH] + name
  }

  lemma ParentBase(p: Text)
    requires Clean(p)
    ensures CleanOrRoot(Parent(p))
    ensures Base(p) != []
    ensures Join(Parent(p), Base(p)) == p
  {
    var i := LastSlash(p);
    if 0 <= i {
      assert i != 0 && i != |p| - 1;
      assert p[i - 1] != SLASH;
      assert p == p[..i] + [SLASH] + p[i + 1..];
    } else {
      assert p[0..] == p;
    }
  }

  lemma SplitJoin(k: Text, name: Text)
    requires CleanOrRoot(k) && name != [] && SLASH !in name
    ensures Clean(Join(k, name))
    ensures Parent(Join(k, name)) == k
    ensures Base(Join(k, name)) == name
  {
    var p := Join(k, name);
    if k == [] {
      assert LastSlash(p) < 0;
      assert p[0..] == p;
    } else {
      assert p[|k|] == SLASH;
      assert forall j :: |k| < j < |p| ==> p[j] == name[j - |k| - 1];
      assert LastSlash(p) == |k|;
      assert p[..|k|] == k;
      assert p[|k| + 1..] == name;
      assert forall i :: 0 <= i < |k| ==> p[i] == k[i];
      assert p[|p| - 1] == name[|name| - 1];
    }
  }

  // ---------- ancestry ----------

  /** `ancestors`: the parent, its parent, and so on down to the root. */
  function Ancestors(p: Text): (r: seq<Text>)
    ensures Parent(p) in r
    ensures [] in r
  {
    if Parent(p) == [] then [[]] else [Parent(p)] + Ancestors(Parent(p))
  }

  /** `q` is `k` itself or reaches `k` by taking parents. */
  predicate AtOrUnder(q: Text, k: Text)
    decreases |q|
  {
    q == k || (q != [] && AtOrUnder(Parent(q), k))
  }

  /** `q` lies strictly below the non-root path `p`: it starts with `p` and '/'. */
  predicate Below(q: Text, p: Text) {
    p + [SLASH] <= q
  }

  lemma {:induction false} AncestorsClosed(p: Text, a: Text)
    requires a in Ancestors(p) && a != []
    ensures Parent(a) in Ancestors(p)
  {
    if Parent(p) != [] && a != Parent(p) {
      AncestorsClosed(Parent(p), a);
    }
  }

  lemma {:induction false} AncestorsClean(p: Text)
    requires Clean(p)
    ensures forall a :: a in Ancestors(p) ==> CleanOrRoot(a)
  {
    ParentBase(p);
    if Parent(p) != [] {
      AncestorsClean(Parent(p));
    }
  }

  lemma {:induction false} RootIsAbove(q: Text)
    ensures AtOrUnder(q, [])
    decreases |q|
  {
    if q != [] { RootIsAbove(Parent(q)); }
  }

  lemma {:induction false} AtOrUnderTransitive(q: Text, k: Text, m: Text)
    requires AtOrUnder(q, k) && AtOrUnder(k, m)
    ensures AtOrUnder(q, m)
    decreases |q|
  {
    if q != k { AtOrUnderTransitive(Parent(q), k, m); }
  }

  lemma {:induction false} AtOrUnderLonger(q: Text, k: Text)
    requires AtOrUnder(q, k)
    ensures |k| <= |q|
    ensures |k| == |q| ==> q == k
    decreases |q|
  {
    if q != k { AtOrUnderLonger(Parent(q), k); }
  }

  /** A '/' lies at or before the last one. */
  lemma SlashesBelow(q: Text, i: nat)
    requires Clean(q) && i < |q| && q[i] == SLASH
    ensures i <= |Parent(q)| && Parent(q) != [] && q[..|Parent(q)|] == Parent(q) && q[|Parent(q)|] == SLASH
  {
    assert i <= LastSlash(q);
    assert LastSlash(q) != 0;
  }

  lemma BelowParent(q: Text, p: Text)
    requires Clean(q) && Clean(p)
    ensures Below(q, p) <==> Parent(q) != [] && (Parent(q) == p || Below(Parent(q), p))
  {
    var k := Parent(q);
    ParentBase(q);
    if Below(q, p) {
      assert q[|p|] == SLASH && q[..|p|] == p;
      SlashesBelow(q, |p|);
      if |p| < |k| {
        assert k[..|p| + 1] == q[..|p| + 1] == p + [SLASH];
      } else {
        assert k == q[..|p|];
      }
    }
    if k != [] {
      assert q == k + [SLASH] + Base(q);
      if Below(k, p) { assert q[..|p| + 1] == k[..|p| + 1]; }
    }
  }

  /** Textual descent (`starts_with("p/")`) is exactly descent by parents. */
  lemma {:induction false} BelowIsUnder(q: Text, p: Text)
    requires Clean(q) && Clean(p)
    ensures Below(q, p) <==> q != p && AtOrUnder(q, p)
  {
    BelowParent(q, p);
    if Parent(q) != [] {
      ParentBase(q);
      BelowIsUnder(Parent(q), p);
    }
    if AtOrUnder(Parent(q), p) { AtOrUnderLonger(Parent(q), p); }
  }

  // ---------- prefixes as displayed and as normalised ----------

  /** `display_prefix`: how a tree node names itself. */
  function DisplayPrefix(k: Text): Text {
    if k == [] then [SLASH] else [SLASH] + k + [SLASH]
  }

  function TrimFront(p: Text): (r: Text)
    ensures |r| <= |p|
  {
    if p != [] && p[0] == SLASH then TrimFront(p[1..]) else p
  }

  function TrimBack(p: Text): (r: Text)
    ensures |r| <= |p|
  {
    if p != [] && p[|p| - 1] == SLASH then TrimBack(p[..|p| - 1]) else p
  }

  /** `normalize_prefix`: strip every surrounding '/'. */
  function NormalizePrefix(p: Text): Text {
    TrimBack(TrimFront(p))
  }

  predicate Slashes(s: Text) {
    forall i :: 0 <= i < |s| ==> s[i] == SLASH
  }

  lemma {:induction false} TrimSlashes(a: Text, k: Text)
    requires Slashes(a) && (k == [] || k[0] != SLASH)
    ensures TrimFront(a + k) == k
    decreases |a|
  {
    if a == [] {
      assert a + k == k;
    } else {
      assert (a + k)[1..] == a[1..] + k;
      TrimSlashes(a[1..], k);
    }
  }

  lemma {:induction false} TrimSlashesBack(k: Text, b: Text)
    requires Slashes(b) && (k == [] || k[|k| - 1] != SLASH)
    ensures TrimBack(k + b) == k
    decreases |b|
  {
    if b == [] {
      assert k + b == k;
    } else {
      assert (k + b)[..|k + b| - 1] == k + b[..|b| - 1];
      TrimSlashesBack(k, b[..|b| - 1]);
    }
  }

  /** Exactly the surrounding slashes go. */
  lemma NormalizeStrips(a: Text, k: Text, b: Text)
    requires Slashes(a) && Slashes(b)
    requires k == [] || (k[0] != SLASH && k[|k| - 1] != SLASH)
    ensures NormalizePrefix(a + k + b) == k
  {
    if k == [] {
      TrimSlashes(a + b, []);
      assert a + k + b == a + b + [];
    } else {
      TrimSlashes(a, k + b);
      assert a + k + b == a + (k + b);
      TrimSlashesBack(k, b);
    }
  }

  lemma NormalizeDisplay(k: Text)
    requires CleanOrRoot(k)
    ensures NormalizePrefix(DisplayPrefix(k)) == k
    ensures NormalizePrefix(k) == k
  {
    NormalizeStrips([SLASH], k, if k == [] then [] else [SLASH]);
    NormalizeStrips([], k, []);
    assert [] + k + [] == k;
    if k == [] { assert [SLASH] + k + [] == [SLASH]; }
  }

  // ---------- components ----------

  function Split(p: Text, sep: byte): (r: seq<Text>)
    ensures |r| >= 1
    ensures forall c :: c in r ==> sep !in c
  {
    if p == [] then [[]]
    else
      var rest := Split(p[1..], sep);
      if p[0] == sep then [[]] + rest
      else [[p[0]] + rest[0]] + rest[1..]
  }

  /** The string with components `cs`, as `Vec::join` builds it. */
  function JoinWith(cs: seq<Text>, sep: byte): Text {
    if cs == [] then [] else if |cs| == 1 then cs[0]
    else cs[0] + [sep] + JoinWith(cs[1..], sep)
  }

  lemma {:induction false} SplitFirst(c: Text, sep: byte, rest: Text)
    requires sep !in c
    ensures Split(c + [sep] + rest, sep) == [c] + Split(rest, sep)
  {
    var p := c + [sep] + rest;
    if c == [] {
      assert p[1..] == rest;
    } else {
      SplitFirst(c[1..], sep, rest);
      assert p[1..] == c[1..] + [sep] + rest;
      assert [c[0]] + c[1..] == c;
    }
  }

  lemma {:induction false} SplitNone(c: Text, sep: byte)
    requires sep !in c
    ensures Split(c, sep) == [c]
  {
    if c != [] {
      SplitNone(c[1..], sep);
      assert [c[0]] + c[1..] == c;
    }
  }

  /** Joining and then splitting gives back the components. */
  lemma {:induction false} SplitJoined(cs: seq<Text>, sep: byte)
    requires cs != [] && forall c :: c in cs ==> sep !in c
    ensures Split(JoinWith(cs, sep), sep) == cs
  {
    if |cs| == 1 {
      SplitNone(cs[0], sep);
    } else {
      SplitJoined(cs[1..], sep);
      SplitFirst(cs[0], sep, JoinWith(cs[1..], sep));
      assert [cs[0]] + cs[1..] == cs;
    }
  }

  /** Splitting and then joining gives back the string. */
  lemma {:induction false} JoinSplit(p: Text, sep: byte)
    ensures JoinWith(Split(p, sep), sep) == p
  {
    if p != [] {
      JoinSplit(p[1..], sep);
      var rest := Split(p[1..], sep);
      if p[0] == sep {
        assert ([[]] + rest)[1..] == rest;
        assert [] + [sep] + p[1..] == p;
      } else {
        var cs := [[p[0]] + rest[0]] + rest[1..];
        assert cs[1..] == rest[1..];
        if |rest| > 1 {
          assert [p[0]] + rest[0] + [sep] + JoinWith(rest[1..], sep)
              == [p[0]] + (rest[0] + [sep] + JoinWith(rest[1..], sep));
        }
        assert [p[0]] + p[1..] == p;
      }
    }
  }
}
