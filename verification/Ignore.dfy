/** src/ignore.rs: glob matching, the verdict of a list of ignore rules, and the
    built-in exclusions. */
module Ignore {
  import opened Bytes
  import opened Paths

  // ---------- glob matching ----------

  const STAR: byte := 42
  const QUESTION: byte := 63

  /** `glob_match_bytes`. */
  predicate GlobMatch(pattern: Text, text: Text)
    decreases |pattern|, |text|
  {
    if pattern == [] then text == []
    else if [STAR, STAR] <= pattern then
      GlobMatch(pattern[2..], text) || (text != [] && GlobMatch(pattern, text[1..]))
    else if pattern[0] == STAR then
      GlobMatch(pattern[1..], text) || (text != [] && text[0] != SLASH && GlobMatch(pattern, text[1..]))
    else if pattern[0] == QUESTION then
      text != [] && text[0] != SLASH && GlobMatch(pattern[1..], text[1..])
    else
      text != [] && pattern[0] == text[0] && GlobMatch(pattern[1..], text[1..])
  }

  datatype Token = AnyPath | AnyName | OneByte | Literal(b: byte)

  /** The tokens of a pattern, read left to right with '**' taking precedence. */
  function Tokens(pattern: Text): seq<Token>
    decreases |pattern|
  {
    if pattern == [] then []
    else if [STAR, STAR] <= pattern then [AnyPath] + Tokens(pattern[2..])
    else if pattern[0] == STAR then [AnyName] + Tokens(pattern[1..])
    else if pattern[0] == QUESTION then [OneByte] + Tokens(pattern[1..])
    else [Literal(pattern[0])] + Tokens(pattern[1..])
  }

  /** What a single token stands for. */
  predicate Accepts(t: Token, piece: Text) {
    match t
    case AnyPath => true
    case AnyName => SLASH !in piece
    case OneByte => |piece| == 1 && piece[0] != SLASH
    case Literal(b) => piece == [b]
  }

  function Concat(pieces: seq<Text>): Text {
    if pieces == [] then [] else pieces[0] + Concat(pieces[1..])
  }

  predicate Fits(tokens: seq<Token>, pieces: seq<Text>) {
    |pieces| == |tokens| && forall i :: 0 <= i < |tokens| ==> Accepts(tokens[i], pieces[i])
  }

  lemma FitsCons(t: Token, ts: seq<Token>, p: Text, ps: seq<Text>)
    ensures Fits([t] + ts, [p] + ps) <==> Accepts(t, p) && Fits(ts, ps)
  {
    if Fits([t] + ts, [p] + ps) {
      forall i | 0 <= i < |ts| ensures Accepts(ts[i], ps[i]) {
        assert Accepts(([t] + ts)[i + 1], ([p] + ps)[i + 1]);
      }
      assert Accepts(([t] + ts)[0], ([p] + ps)[0]);
    }
  }

  /** A match yields a split of the text into pieces the tokens accept. */
  lemma {:induction false} GlobSound(pattern: Text, text: Text) returns (pieces: seq<Text>)
    requires GlobMatch(pattern, text)
    ensures Fits(Tokens(pattern), pieces) && Concat(pieces) == text
    decreases |pattern|, |text|
  {
    if pattern == [] {
      pieces := [];
    } else {
      var t, rest := Tokens(pattern)[0], if [STAR, STAR] <= pattern then pattern[2..] else pattern[1..];
      assert Tokens(pattern) == [t] + Tokens(rest);
      if pattern[0] == STAR && GlobMatch(rest, text) {
        var others := GlobSound(rest, text);
        FitsCons(t, Tokens(rest), [], others);
        pieces := [[]] + others;
      } else if pattern[0] == STAR {
        var longer := GlobSound(pattern, text[1..]);
        pieces := GrowFirst(t, Tokens(rest), text, longer);
      } else {
        var others := GlobSound(rest, text[1..]);
        FitsCons(t, Tokens(rest), [text[0]], others);
        pieces := [[text[0]]] + others;
      }
    }
  }

  /** Extend the first piece, which a wildcard accepts, by one byte at the front. */
  lemma GrowFirst(t: Token, ts: seq<Token>, text: Text, longer: seq<Text>) returns (pieces: seq<Text>)
    requires text != [] && (t == AnyPath || (t == AnyName && text[0] != SLASH))
    requires Fits([t] + ts, longer) && Concat(longer) == text[1..]
    ensures Fits([t] + ts, pieces) && Concat(pieces) == text
  {
    assert longer == [longer[0]] + longer[1..];
    FitsCons(t, ts, longer[0], longer[1..]);
    var first := [text[0]] + longer[0];
    FitsCons(t, ts, first, longer[1..]);
    pieces := [first] + longer[1..];
    assert pieces[1..] == longer[1..];
    assert first + Concat(longer[1..]) == [text[0]] + (longer[0] + Concat(longer[1..]));
    assert text == [text[0]] + text[1..];
  }

  /** Any such split is found. */
  lemma {:induction false} GlobComplete(pattern: Text, text: Text, pieces: seq<Text>)
    requires Fits(Tokens(pattern), pieces) && Concat(pieces) == text
    ensures GlobMatch(pattern, text)
    decreases |pattern|, |text|
  {
    if pattern != [] {
      var t, rest := Tokens(pattern)[0], if [STAR, STAR] <= pattern then pattern[2..] else pattern[1..];
      assert Tokens(pattern) == [t] + Tokens(rest);
      assert pieces == [pieces[0]] + pieces[1..];
      var first, others := pieces[0], pieces[1..];
      FitsCons(t, Tokens(rest), first, others);
      if first == [] {
        assert text == Concat(others);
        GlobComplete(rest, text, others);
      } else if pattern[0] == STAR {
        assert text == [first[0]] + (first[1..] + Concat(others));
        assert text[1..] == first[1..] + Concat(others);
        FitsCons(t, Tokens(rest), first[1..], others);
        assert Concat([first[1..]] + others) == text[1..];
        GlobComplete(pattern, text[1..], [first[1..]] + others);
      } else {
        assert text == first + Concat(others) && |first| == 1;
        assert text[1..] == Concat(others);
        GlobComplete(rest, text[1..], others);
      }
    }
  }

  /** `glob_match_bytes` accepts exactly the texts that split along the tokens. */
  lemma GlobExact(pattern: Text, text: Text)
    ensures GlobMatch(pattern, text) <==>
      exists pieces :: Fits(Tokens(pattern), pieces) && Concat(pieces) == text
  {
    if GlobMatch(pattern, text) {
      var pieces := GlobSound(pattern, text);
    }
    if pieces :| Fits(Tokens(pattern), pieces) && Concat(pieces) == text {
      GlobComplete(pattern, text, pieces);
    }
  }

  // ---------- rules ----------

  datatype Rule = Rule(pattern: Text, negated: bool, directoryOnly: bool, anchored: bool, hasSlash: bool)

  /** `q` is made of the first one or more components of `p`. */
  ghost predicate LeadingComponents(q: Text, p: Text) {
    exists n :: 0 < n <= |Split(p, SLASH)| && q == JoinWith(Split(p, SLASH)[..n], SLASH)
  }

  /** `q` is `p` from the start of one of its components. */
  ghost predicate ComponentSuffix(q: Text, p: Text) {
    q == p || exists i :: 0 <= i < |p| && p[i] == SLASH && q == p[i + 1..]
  }

  /** Does the rule match this one candidate? */
  ghost predicate MatchesTarget(rule: Rule, target: Text) {
    if rule.anchored then GlobMatch(rule.pattern, target)
    else if rule.hasSlash then exists q :: ComponentSuffix(q, target) && GlobMatch(rule.pattern, q)
    else exists c :: c in Split(target, SLASH) && GlobMatch(rule.pattern, c)
  }

  /** A rule matches a path, or, if it is for directories, a leading part of it. */
  ghost predicate RuleMatches(rule: Rule, p: Text) {
    if rule.directoryOnly then exists q :: LeadingComponents(q, p) && MatchesTarget(rule, q)
    else MatchesTarget(rule, p)
  }

  /** The last matching rule decides, and it is not a negated one. */
  ghost predicate Excluded(rules: seq<Rule>, p: Text) {
    exists i :: 0 <= i < |rules| && RuleMatches(rules[i], p) && !rules[i].negated
      && forall j :: i < j < |rules| ==> !RuleMatches(rules[j], p)
  }

  /** `directory_candidates`. */
  method DirectoryCandidates(relative: Text) returns (out: seq<Text>)
    ensures forall q :: q in out <==> LeadingComponents(q, relative)
  {
    var parts := Split(relative, SLASH);
    out := [];
    for i := 0 to |parts|
      invariant forall q :: q in out <==> exists n :: 0 < n <= i && q == JoinWith(parts[..n], SLASH)
    {
      out := out + [JoinWith(parts[..i + 1], SLASH)];
    }
  }

  /** `str::find('/')` from `start`, or the length if there is none. */
  function NextSlash(p: Text, start: nat): (i: nat)
    requires start <= |p|
    ensures start <= i <= |p|
    ensures i < |p| ==> p[i] == SLASH
    ensures forall j :: start <= j < i ==> p[j] != SLASH
    decreases |p| - start
  {
    if start == |p| || p[start] == SLASH then start else NextSlash(p, start + 1)
  }

  /** `path_suffix_candidates`. */
  method PathSuffixCandidates(relative: Text) returns (suffixes: seq<Text>)
    ensures forall q :: q in suffixes <==> ComponentSuffix(q, relative)
  {
    suffixes := [relative];
    var start := 0;
    while NextSlash(relative, start) < |relative|
      invariant start <= |relative|
      invariant forall q :: q in suffixes <==>
        q == relative || exists i :: 0 <= i < start && relative[i] == SLASH && q == relative[i + 1..]
      decreases |relative| - start
    {
      start := NextSlash(relative, start) + 1;
      suffixes := suffixes + [relative[start..]];
    }
  }

  lemma {:induction false} SplitSnoc(k: Text, name: Text)
    requires SLASH !in name
    ensures Split(k + [SLASH] + name, SLASH) == Split(k, SLASH) + [name]
  {
    if k == [] {
      SplitFirst([], SLASH, name);
      SplitNone(name, SLASH);
      assert [] + [SLASH] + name == k + [SLASH] + name;
    } else {
      SplitSnoc(k[1..], name);
      assert (k + [SLASH] + name)[1..] == k[1..] + [SLASH] + name;
    }
  }

  /** On a clean path the candidates of a directory rule are the path and its
      ancestors other than the root. */
  lemma {:induction false} LeadingIsAncestry(q: Text, p: Text)
    requires Clean(p)
    ensures LeadingComponents(q, p) <==> q != [] && AtOrUnder(p, q)
    decreases |p|
  {
    ParentBase(p);
    var k, name, parts := Parent(p), Base(p), Split(p, SLASH);
    JoinSplit(p, SLASH);
    assert parts[..|parts|] == parts;
    if k == [] {
      SplitNone(p, SLASH);
      assert AtOrUnder(p, q) <==> q == p || q == [];
      if LeadingComponents(q, p) {
        var n :| 0 < n <= |parts| && q == JoinWith(parts[..n], SLASH);
        assert parts[..n] == parts;
      }
    } else {
      SplitSnoc(k, name);
      var above := Split(k, SLASH);
      LeadingIsAncestry(q, k);
      assert forall n :: 0 < n <= |above| ==> parts[..n] == above[..n];
      if LeadingComponents(q, p) {
        var n :| 0 < n <= |parts| && q == JoinWith(parts[..n], SLASH);
        if n <= |above| { assert q == JoinWith(above[..n], SLASH); }
      }
      if LeadingComponents(q, k) {
        var n :| 0 < n <= |above| && q == JoinWith(above[..n], SLASH);
        assert q == JoinWith(parts[..n], SLASH);
      }
    }
  }

  // ---------- which paths a rule is about ----------

  /** The components of a path are the names of it and of its ancestors. */
  lemma {:induction false} ComponentIsBase(p: Text, c: Text)
    requires Clean(p)
    ensures c in Split(p, SLASH) <==> exists a :: a != [] && AtOrUnder(p, a) && Base(a) == c
    decreases |p|
  {
    ParentBase(p);
    var k := Parent(p);
    if k == [] {
      SplitNone(p, SLASH);
      assert AtOrUnder(p, p);
      forall a | a != [] && AtOrUnder(p, a) ensures a == p { assert a != p ==> AtOrUnder(k, a); }
    } else {
      SplitSnoc(k, Base(p));
      ComponentIsBase(k, c);
      if a :| a != [] && AtOrUnder(p, a) && Base(a) == c { assert a != p ==> AtOrUnder(k, a); }
      if a :| a != [] && AtOrUnder(k, a) && Base(a) == c { assert AtOrUnder(p, a); }
      assert AtOrUnder(p, p);
    }
  }

  /** The rule is about `q`: an anchored one if its pattern matches the whole of it, one with a
      slash if it matches the whole or what follows some slash, any other one if it matches
      the name of `q` or of one of its ancestors. */
  ghost predicate About(rule: Rule, q: Text) {
    if rule.anchored then GlobMatch(rule.pattern, q)
    else if rule.hasSlash then
      GlobMatch(rule.pattern, q) || exists k, s :: q == k + [SLASH] + s && GlobMatch(rule.pattern, s)
    else exists a :: a != [] && AtOrUnder(q, a) && GlobMatch(rule.pattern, Base(a))
  }

  lemma TargetIsAbout(rule: Rule, q: Text)
    requires Clean(q)
    ensures MatchesTarget(rule, q) <==> About(rule, q)
  {
    if rule.anchored {
    } else if rule.hasSlash {
      if s :| ComponentSuffix(s, q) && GlobMatch(rule.pattern, s) {
        if s != q {
          var i :| 0 <= i < |q| && q[i] == SLASH && s == q[i + 1..];
          assert q == q[..i] + [SLASH] + s;
        }
      }
      if k, s :| q == k + [SLASH] + s && GlobMatch(rule.pattern, s) {
        assert q[|k|] == SLASH && s == q[|k| + 1..];
      }
      assert ComponentSuffix(q, q);
    } else {
      if c :| c in Split(q, SLASH) && GlobMatch(rule.pattern, c) { ComponentIsBase(q, c); }
      if a :| a != [] && AtOrUnder(q, a) && GlobMatch(rule.pattern, Base(a)) { ComponentIsBase(q, Base(a)); }
    }
  }

  lemma {:induction false} AncestorClean(p: Text, q: Text)
    requires Clean(p) && q != [] && AtOrUnder(p, q)
    ensures Clean(q)
    decreases |p|
  {
    if p != q {
      ParentBase(p);
      AncestorClean(Parent(p), q);
    }
  }

  /** A rule matches the paths it is about, and one for directories everything below them. */
  lemma RuleInPaths(rule: Rule, p: Text)
    requires Clean(p)
    ensures RuleMatches(rule, p) <==>
      exists q :: q != [] && AtOrUnder(p, q) && (rule.directoryOnly || q == p) && About(rule, q)
  {
    if q :| LeadingComponents(q, p) && MatchesTarget(rule, q) {
      LeadingIsAncestry(q, p);
      AncestorClean(p, q);
      TargetIsAbout(rule, q);
    }
    if q :| q != [] && AtOrUnder(p, q) && (rule.directoryOnly || q == p) && About(rule, q) {
      LeadingIsAncestry(q, p);
      AncestorClean(p, q);
      TargetIsAbout(rule, q);
    }
    TargetIsAbout(rule, p);
    assert AtOrUnder(p, p);
  }

  lemma {:induction false} LiteralGlob(pattern: Text, text: Text)
    requires STAR !in pattern && QUESTION !in pattern
    ensures GlobMatch(pattern, text) <==> text == pattern
    decreases |pattern|
  {
    if pattern != [] {
      assert pattern[0] in pattern && !([STAR, STAR] <= pattern);
      if text != [] {
        LiteralGlob(pattern[1..], text[1..]);
        assert pattern == [pattern[0]] + pattern[1..] && text == [text[0]] + text[1..];
      }
    }
  }

  /** What that means for a pattern without wildcards. */
  lemma LiteralRule(rule: Rule, p: Text)
    requires Clean(p) && rule.pattern != [] && STAR !in rule.pattern && QUESTION !in rule.pattern
    ensures rule.anchored && !rule.directoryOnly ==> (RuleMatches(rule, p) <==> p == rule.pattern)
    ensures rule.anchored && rule.directoryOnly ==> (RuleMatches(rule, p) <==> AtOrUnder(p, rule.pattern))
    ensures !rule.anchored && !rule.hasSlash ==> (RuleMatches(rule, p) <==> rule.pattern in Split(p, SLASH))
    ensures !rule.anchored && rule.hasSlash && !rule.directoryOnly ==>
      (RuleMatches(rule, p) <==> p == rule.pattern || exists k :: p == k + [SLASH] + rule.pattern)
  {
    forall t ensures GlobMatch(rule.pattern, t) <==> t == rule.pattern { LiteralGlob(rule.pattern, t); }
    if rule.anchored {
      LiteralAnchored(rule, p);
    } else if !rule.hasSlash {
      ComponentIsBase(p, rule.pattern);
      LiteralName(rule, p);
    } else if !rule.directoryOnly {
      TargetIsAbout(rule, p);
      if k :| p == k + [SLASH] + rule.pattern { assert GlobMatch(rule.pattern, rule.pattern); }
    }
  }

  lemma LiteralAnchored(rule: Rule, p: Text)
    requires Clean(p) && rule.anchored && rule.pattern != []
    requires forall t :: GlobMatch(rule.pattern, t) <==> t == rule.pattern
    ensures RuleMatches(rule, p) <==> if rule.directoryOnly then AtOrUnder(p, rule.pattern) else p == rule.pattern
  {
    RuleInPaths(rule, p);
    if AtOrUnder(p, rule.pattern) { assert About(rule, rule.pattern); }
    assert AtOrUnder(p, p);
  }

  lemma LiteralName(rule: Rule, p: Text)
    requires Clean(p) && !rule.anchored && !rule.hasSlash
    requires forall t :: GlobMatch(rule.pattern, t) <==> t == rule.pattern
    ensures RuleMatches(rule, p) <==> exists a :: a != [] && AtOrUnder(p, a) && Base(a) == rule.pattern
  {
    RuleInPaths(rule, p);
    if q :| q != [] && AtOrUnder(p, q) && (rule.directoryOnly || q == p) && About(rule, q) {
      var a :| a != [] && AtOrUnder(q, a) && GlobMatch(rule.pattern, Base(a));
      AtOrUnderTransitive(p, q, a);
    }
    if a :| a != [] && AtOrUnder(p, a) && Base(a) == rule.pattern {
      assert About(rule, p);
      assert AtOrUnder(p, p);
    }
  }

  method MatchesAny(pattern: Text, candidates: seq<Text>) returns (b: bool)
    ensures b <==> exists c :: c in candidates && GlobMatch(pattern, c)
  {
    for i := 0 to |candidates|
      invariant forall c :: c in candidates[..i] ==> !GlobMatch(pattern, c)
    {
      if GlobMatch(pattern, candidates[i]) {
        assert candidates[i] in candidates;
        return true;
      }
    }
    assert candidates[..|candidates|] == candidates;
    return false;
  }

  /** `matches_ignore_pattern`. */
  method MatchesIgnorePattern(rule: Rule, relative: Text) returns (b: bool)
    ensures b <==> RuleMatches(rule, relative)
  {
    var targets := [relative];
    if rule.directoryOnly { targets := DirectoryCandidates(relative); }
    for i := 0 to |targets|
      invariant forall t :: t in targets[..i] ==> !MatchesTarget(rule, t)
    {
      var target := targets[i];
      var hit := false;
      if rule.anchored {
        hit := GlobMatch(rule.pattern, target);
      } else if rule.hasSlash {
        var suffixes := PathSuffixCandidates(target);
        hit := MatchesAny(rule.pattern, suffixes);
      } else {
        hit := MatchesAny(rule.pattern, Split(target, SLASH));
      }
      if hit {
        assert MatchesTarget(rule, target) && target in targets;
        return true;
      }
    }
    assert targets[..|targets|] == targets;
    return false;
  }

  /** `matches_ignore_patterns`. */
  method MatchesIgnorePatterns(rules: seq<Rule>, relative: Text) returns (ignored: bool)
    ensures ignored <==> Excluded(rules, relative)
  {
    ignored := false;
    for i := 0 to |rules|
      invariant ignored <==> Excluded(rules[..i], relative)
    {
      var hit := MatchesIgnorePattern(rules[i], relative);
      ExcludedSnoc(rules[..i], rules[i], relative);
      assert rules[..i + 1] == rules[..i] + [rules[i]];
      if hit { ignored := !rules[i].negated; }
    }
    assert rules[..|rules|] == rules;
  }

  lemma ExcludedSnoc(rules: seq<Rule>, rule: Rule, p: Text)
    ensures Excluded(rules + [rule], p) <==>
      if RuleMatches(rule, p) then !rule.negated else Excluded(rules, p)
  {
    var all := rules + [rule];
    assert all[|rules|] == rule;
    if Excluded(rules, p) && !RuleMatches(rule, p) {
      var i :| 0 <= i < |rules| && RuleMatches(rules[i], p) && !rules[i].negated
        && forall j :: i < j < |rules| ==> !RuleMatches(rules[j], p);
      assert all[i] == rules[i];
    }
    if RuleMatches(rule, p) && !rule.negated {
      assert RuleMatches(all[|rules|], p);
    }
    if Excluded(all, p) {
      var i :| 0 <= i < |all| && RuleMatches(all[i], p) && !all[i].negated
        && forall j :: i < j < |all| ==> !RuleMatches(all[j], p);
      if i < |rules| {
        assert !RuleMatches(all[|rules|], p);
        forall j | i < j < |rules| ensures !RuleMatches(rules[j], p) { assert all[j] == rules[j]; }
        assert all[i] == rules[i];
      }
    }
  }

  // ---------- built-in exclusions ----------

  predicate IgnoredName(name: Text) {
    || name == Ascii(".lil")
    || name == Ascii(".DS_Store") || name == Ascii("Thumbs.db") || name == Ascii("Desktop.ini")
    || Ascii("._") <= name
    || name == Ascii(".Spotlight-V100") || name == Ascii(".Trashes") || name == Ascii(".fseventsd")
    || name == Ascii("$RECYCLE.BIN") || name == Ascii("lost+found")
  }

  /** `should_ignore`. */
  ghost predicate ShouldIgnore(p: Text, rules: seq<Rule>) {
    p != Ascii(".nolil") && ((exists c :: c in Split(p, SLASH) && IgnoredName(c)) || Excluded(rules, p))
  }

  method CheckIgnore(p: Text, rules: seq<Rule>) returns (b: bool)
    ensures b <==> ShouldIgnore(p, rules)
  {
    if p == Ascii(".nolil") { return false; }
    var parts := Split(p, SLASH);
    for i := 0 to |parts|
      invariant forall c :: c in parts[..i] ==> !IgnoredName(c)
    {
      if IgnoredName(parts[i]) { return true; }
    }
    assert parts[..|parts|] == parts;
    b := MatchesIgnorePatterns(rules, p);
  }
}
