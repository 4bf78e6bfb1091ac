/** Byte strings: the order the source's `BTreeMap`s iterate in, and the
    length-prefixed encodings that are fed to the hash. A Rust `String` is
    modelled by its UTF-8 bytes, which is also what it is ordered and hashed by. */
module Bytes {

  newtype byte = x: int | 0 <= x < 256

  type Text = seq<byte>

  const U32: nat := 0x1_0000_0000
  const U64: nat := 0x1_0000_0000_0000_0000

  /** The bytes of an ASCII literal. */
  function Ascii(s: string): (r: Text)
    ensures |r| == |s|
    ensures forall i :: 0 <= i < |s| ==> r[i] as int == s[i] as int % 256
  {
    seq(|s|, i requires 0 <= i < |s| => (s[i] as int % 256) as byte)
  }

  // ---------- lexicographic order ----------

  predicate Le(a: Text, b: Text) {
    a == [] || (b != [] && (a[0] < b[0] || (a[0] == b[0] && Le(a[1..], b[1..]))))
  }

  lemma LeTotal(a: Text, b: Text)
    ensures Le(a, b) || Le(b, a)
  {
  }

  lemma {:induction false} LeAntisymmetric(a: Text, b: Text)
    requires Le(a, b) && Le(b, a)
    ensures a == b
  {
    if a != [] && b != [] {
      LeAntisymmetric(a[1..], b[1..]);
      assert a == [a[0]] + a[1..] && b == [b[0]] + b[1..];
    }
  }

  lemma {:induction false} LeTransitive(a: Text, b: Text, c: Text)
    requires Le(a, b) && Le(b, c)
    ensures Le(a, c)
  {
    if a != [] && b != [] && c != [] && a[0] == b[0] && b[0] == c[0] {
      LeTransitive(a[1..], b[1..], c[1..]);
    }
  }

  lemma {:induction false} PrefixLe(a: Text, b: Text)
    requires a <= b
    ensures Le(a, b)
  {
    if a != [] {
      assert a[1..] <= b[1..];
      PrefixLe(a[1..], b[1..]);
    }
  }

  /** `a` is a proper beginning of `b`, or smaller at the first byte in which they differ. */
  ghost predicate Precedes(a: Text, b: Text) {
    a < b || exists n :: 0 <= n < |a| && n < |b| && a[..n] == b[..n] && a[n] < b[n]
  }

  /** The order is the one in which a dictionary lists its words. */
  lemma {:induction false} LeExactly(a: Text, b: Text)
    ensures Le(a, b) && a != b <==> Precedes(a, b)
  {
    if a != [] && b != [] && a[0] == b[0] {
      LeExactly(a[1..], b[1..]);
      assert a == [a[0]] + a[1..] && b == [b[0]] + b[1..];
      if n :| 0 <= n < |a| && n < |b| && a[..n] == b[..n] && a[n] < b[n] {
        assert a[1..][..n - 1] == a[..n][1..] == b[..n][1..] == b[1..][..n - 1];
        assert a[1..][n - 1] < b[1..][n - 1];
      }
      if n :| 0 <= n < |a[1..]| && n < |b[1..]| && a[1..][..n] == b[1..][..n] && a[1..][n] < b[1..][n] {
        assert a[..n + 1] == [a[0]] + a[1..][..n] && b[..n + 1] == [b[0]] + b[1..][..n];
        assert a[n + 1] < b[n + 1];
      }
    } else if a != [] && b != [] && a[0] < b[0] {
      assert a[..0] == b[..0];
    }
  }

  // ---------- sorted enumeration of a set, as a BTreeSet iterates ----------

  predicate Least(m: Text, s: set<Text>) {
    m in s && forall k :: k in s ==> Le(m, k)
  }

  lemma LeastExists(s: set<Text>)
    requires s != {}
    ensures exists m :: Least(m, s)
  {
    var x :| x in s;
    if s == {x} {
      LeTotal(x, x);
      assert Least(x, s);
    } else {
      LeastExists(s - {x});
      var m :| Least(m, s - {x});
      LeTotal(x, m);
      LeTotal(x, x);
      if Le(x, m) {
        forall k | k in s ensures Le(x, k) {
          if k != x { LeTransitive(x, m, k); }
        }
        assert Least(x, s);
      } else {
        assert Least(m, s);
      }
    }
  }

  lemma LeastUnique(s: set<Text>)
    ensures forall m, n :: Least(m, s) && Least(n, s) ==> m == n
  {
    forall m, n | Least(m, s) && Least(n, s) ensures m == n {
      LeAntisymmetric(m, n);
    }
  }

  ghost predicate Ascending(ks: seq<Text>) {
    forall i, j :: 0 <= i < j < |ks| ==> Le(ks[i], ks[j]) && ks[i] != ks[j]
  }

  /** The elements of `s` in ascending byte order. */
  function Sorted(s: set<Text>): (ks: seq<Text>)
    ensures Ascending(ks)
    ensures forall k :: k in ks <==> k in s
    ensures |ks| == |s|
  {
    if s == {} then [] else
      LeastExists(s);
      LeastUnique(s);
      var m :| Least(m, s);
      [m] + Sorted(s - {m})
  }

  // ---------- fixed-width and length-prefixed encodings ----------

  function Pow(b: nat, e: nat): nat {
    if e == 0 then 1 else b * Pow(b, e - 1)
  }

  lemma Pow256()
    ensures Pow(256, 4) == U32
    ensures Pow(256, 8) == U64
  {
    assert Pow(256, 1) == 256;
    assert Pow(256, 2) == 0x1_0000;
    assert Pow(256, 3) == 0x100_0000;
    assert Pow(256, 4) == U32;
    assert Pow(256, 5) == 0x100_0000_0000;
    assert Pow(256, 6) == 0x1_0000_0000_0000;
    assert Pow(256, 7) == 0x100_0000_0000_0000;
  }

  /** The low `width` bytes of `n`, most significant first (`to_be_bytes`). */
  function BigEndian(n: nat, width: nat): (r: Text)
    ensures |r| == width
  {
    if width == 0 then [] else BigEndian(n / 256, width - 1) + [(n % 256) as byte]
  }

  lemma {:induction false} BigEndianInjective(a: nat, b: nat, width: nat)
    requires a < Pow(256, width) && b < Pow(256, width)
    requires BigEndian(a, width) == BigEndian(b, width)
    ensures a == b
  {
    if width > 0 {
      var x, y := BigEndian(a, width), BigEndian(b, width);
      assert x[width - 1] == (a % 256) as byte && y[width - 1] == (b % 256) as byte;
      assert x[..width - 1] == BigEndian(a / 256, width - 1);
      assert y[..width - 1] == BigEndian(b / 256, width - 1);
      BigEndianInjective(a / 256, b / 256, width - 1);
    }
  }

  /** `encode_str`: an eight-byte length, then the bytes. */
  function Str(s: Text): (r: Text)
    ensures |r| == 8 + |s|
  {
    BigEndian(|s|, 8) + s
  }

  lemma Cancel(a: Text, b: Text, x: Text, y: Text)
    requires |a| == |b| && a + x == b + y
    ensures a == b && x == y
  {
    assert a == (a + x)[..|a|] && b == (b + y)[..|b|];
    assert x == (a + x)[|a|..] && y == (b + y)[|b|..];
  }

  /** A length-prefixed string can be read back off the front of any input. */
  lemma StrPrefixFree(a: Text, b: Text, x: Text, y: Text)
    requires |a| < U64 && |b| < U64
    requires Str(a) + x == Str(b) + y
    ensures a == b && x == y
  {
    assert Str(a) + x == BigEndian(|a|, 8) + (a + x);
    assert Str(b) + y == BigEndian(|b|, 8) + (b + y);
    Cancel(BigEndian(|a|, 8), BigEndian(|b|, 8), a + x, b + y);
    Pow256();
    BigEndianInjective(|a|, |b|, 8);
    Cancel(a, b, x, y);
  }

  lemma WordPrefixFree(a: nat, b: nat, x: Text, y: Text)
    requires a < U64 && b < U64
    requires BigEndian(a, 8) + x == BigEndian(b, 8) + y
    ensures a == b && x == y
  {
    Cancel(BigEndian(a, 8), BigEndian(b, 8), x, y);
    Pow256();
    BigEndianInjective(a, b, 8);
  }
}
