/** src/entries.rs: the replicated entry, its version order, and (from
    src/tree.rs) the bytes an entry is hashed by. */
module Entries {
  import opened Wrappers
  import opened Bytes

  type u32 = n: nat | n < U32
  type u64 = n: nat | n < U64

  type Digest = d: Text | |d| == 32 witness seq(32, _ => 0)

  /** BLAKE3, about which nothing is assumed beyond the length of its output. */
  type Hasher = Text -> Digest

  datatype EntryKind = File | Dir | Tombstone | Symlink

  /** A Lamport stamp. The clock is unbounded here; `Sized` says when it fits a u64. */
  datatype Version = Version(lamport: nat, origin: Text) {
    predicate Less(other: Version) {
      lamport < other.lamport
      || (lamport == other.lamport && origin != other.origin && Le(origin, other.origin))
    }

    predicate AtMost(other: Version) {
      this == other || Less(other)
    }
  }

  datatype Entry = Entry(
    path: Text,
    kind: EntryKind,
    contentHash: Option<Digest>,
    symlinkTarget: Option<Text>,
    size: u64,
    mode: Option<u32>,
    version: Version)

  /** An index as the source stores it: each entry filed under its own path. */
  type Index = map<Text, Entry>

  /** The indices do not differ at `p`. */
  ghost predicate SameAt(a: Index, b: Index, p: Text) {
    (p in a <==> p in b) && (p in a ==> a[p] == b[p])
  }

  predicate Live(e: Entry) {
    e.kind != Tombstone
  }

  /** `tombstone_entry`: what a deletion leaves. */
  function TombstoneOf(path: Text, prev: Entry, version: Version): Entry {
    Entry(path, Tombstone, None, None, 0, prev.mode, version)
  }

  /** `same_observed_state`: equal apart from the version. */
  predicate SameObserved(a: Entry, b: Entry) {
    && a.path == b.path && a.kind == b.kind && a.contentHash == b.contentHash
    && a.symlinkTarget == b.symlinkTarget && a.size == b.size && a.mode == b.mode
  }

  // ---------- the version order is total ----------

  lemma VersionTotal(a: Version, b: Version)
    ensures a == b || a.Less(b) || b.Less(a)
    ensures !(a.Less(b) && b.Less(a))
    ensures !a.Less(a)
  {
    LeTotal(a.origin, b.origin);
    if a.Less(b) && b.Less(a) { LeAntisymmetric(a.origin, b.origin); }
  }

  /** The larger clock wins; between equal clocks the origin that a dictionary lists later. */
  lemma LaterWins(a: Version, b: Version)
    ensures a.Less(b) <==> a.lamport < b.lamport || (a.lamport == b.lamport && Precedes(a.origin, b.origin))
  {
    LeExactly(a.origin, b.origin);
  }

  lemma VersionTransitive(a: Version, b: Version, c: Version)
    requires a.AtMost(b) && b.AtMost(c)
    ensures a.AtMost(c)
    ensures a.Less(b) || b.Less(c) ==> a.Less(c)
  {
    if a.Less(b) && b.Less(c) && a.lamport == b.lamport == c.lamport {
      LeTransitive(a.origin, b.origin, c.origin);
      if a.origin == c.origin { LeAntisymmetric(a.origin, b.origin); }
    }
  }

  // ---------- what an entry is hashed by ----------

  function KindName(k: EntryKind): Text {
    match k
    case File => Ascii("file")
    case Dir => Ascii("dir")
    case Tombstone => Ascii("tombstone")
    case Symlink => Ascii("symlink")
  }

  function OptHash(v: Option<Digest>): Text {
    match v case Some(d) => [1] + d case None => [0]
  }

  function OptStr(v: Option<Text>): Text {
    match v case Some(s) => [1] + Str(s) case None => [0]
  }

  function OptWord(v: Option<u32>): Text {
    match v case Some(n) => [1] + BigEndian(n, 4) case None => [0]
  }

  function EntryBytes(e: Entry): Text {
    Str(Ascii("lil-entry-v1")) +
    (Str(e.path) +
    (Str(KindName(e.kind)) +
    (OptHash(e.contentHash) +
    (OptStr(e.symlinkTarget) +
    (BigEndian(e.size, 8) +
    (OptWord(e.mode) +
    (BigEndian(e.version.lamport, 8) +
     Str(e.version.origin))))))))
  }

  function EntryHash(h: Hasher, e: Entry): Digest {
    h(EntryBytes(e))
  }

  /** Lengths and clock fit the eight-byte fields they are written to. */
  predicate Sized(e: Entry) {
    && |e.path| < U64 && |e.version.origin| < U64 && e.version.lamport < U64
    && (e.symlinkTarget.Some? ==> |e.symlinkTarget.value| < U64)
  }

  lemma KindNameInjective(a: EntryKind, b: EntryKind)
    requires KindName(a) == KindName(b)
    ensures a == b
  {
    assert |KindName(a)| == match a case File => 4 case Dir => 3 case Tombstone => 9 case Symlink => 7;
    assert |KindName(b)| == match b case File => 4 case Dir => 3 case Tombstone => 9 case Symlink => 7;
  }

  lemma OptHashPrefixFree(a: Option<Digest>, b: Option<Digest>, x: Text, y: Text)
    requires OptHash(a) + x == OptHash(b) + y
    ensures a == b && x == y
  {
    assert (OptHash(a) + x)[0] == (OptHash(b) + y)[0];
    Cancel(OptHash(a), OptHash(b), x, y);
    if a.Some? { Cancel([1], [1], a.value, b.value); }
  }

  lemma OptStrPrefixFree(a: Option<Text>, b: Option<Text>, x: Text, y: Text)
    requires a.Some? ==> |a.value| < U64
    requires b.Some? ==> |b.value| < U64
    requires OptStr(a) + x == OptStr(b) + y
    ensures a == b && x == y
  {
    var u, v := OptStr(a), OptStr(b);
    assert (u + x)[0] == u[0] && (v + y)[0] == v[0];
    if a.Some? && b.Some? {
      var s, t := Str(a.value), Str(b.value);
      assert [1] + s + x == [1] + (s + x) && [1] + t + y == [1] + (t + y);
      Cancel([1], [1], s + x, t + y);
      StrPrefixFree(a.value, b.value, x, y);
    } else if a.None? && b.None? {
      Cancel(u, v, x, y);
    }
  }

  lemma OptWordPrefixFree(a: Option<u32>, b: Option<u32>, x: Text, y: Text)
    requires OptWord(a) + x == OptWord(b) + y
    ensures a == b && x == y
  {
    assert (OptWord(a) + x)[0] == (OptWord(b) + y)[0];
    Cancel(OptWord(a), OptWord(b), x, y);
    if a.Some? {
      Cancel([1], [1], BigEndian(a.value, 4), BigEndian(b.value, 4));
      Pow256();
      BigEndianInjective(a.value, b.value, 4);
    }
  }

  /** The entry encoding is uniquely decodable. */
  lemma EntryBytesInjective(a: Entry, b: Entry)
    requires Sized(a) && Sized(b)
    requires EntryBytes(a) == EntryBytes(b)
    ensures a == b
  {
    var lastA := Str(a.version.origin);
    var lastB := Str(b.version.origin);
    var clockA := BigEndian(a.version.lamport, 8) + lastA;
    var clockB := BigEndian(b.version.lamport, 8) + lastB;
    var modeA := OptWord(a.mode) + clockA;
    var modeB := OptWord(b.mode) + clockB;
    var sizeA := BigEndian(a.size, 8) + modeA;
    var sizeB := BigEndian(b.size, 8) + modeB;
    var targetA := OptStr(a.symlinkTarget) + sizeA;
    var targetB := OptStr(b.symlinkTarget) + sizeB;
    var contentA := OptHash(a.contentHash) + targetA;
    var contentB := OptHash(b.contentHash) + targetB;
    var kindA := Str(KindName(a.kind)) + contentA;
    var kindB := Str(KindName(b.kind)) + contentB;
    StrPrefixFree(Ascii("lil-entry-v1"), Ascii("lil-entry-v1"), Str(a.path) + kindA, Str(b.path) + kindB);
    StrPrefixFree(a.path, b.path, kindA, kindB);
    StrPrefixFree(KindName(a.kind), KindName(b.kind), contentA, contentB);
    KindNameInjective(a.kind, b.kind);
    OptHashPrefixFree(a.contentHash, b.contentHash, targetA, targetB);
    OptStrPrefixFree(a.symlinkTarget, b.symlinkTarget, sizeA, sizeB);
    WordPrefixFree(a.size, b.size, modeA, modeB);
    OptWordPrefixFree(a.mode, b.mode, clockA, clockB);
    WordPrefixFree(a.version.lamport, b.version.lamport, lastA, lastB);
    assert lastA == lastA + [] && lastB == lastB + [];
    StrPrefixFree(a.version.origin, b.version.origin, [], []);
  }
}
