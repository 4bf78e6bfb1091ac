/** src/cli.rs: the base-62 conversion of tickets. A byte string is read as one big-endian
    integer; long division and multiply-add work on it in place. */
module Base62 {
  import opened Wrappers
  import opened Bytes

  // ---------- positional notation ----------

  /** A list of digits, most significant first, all below the base. */
  ghost predicate Below(base: nat, ds: seq<nat>) {
    forall i :: 0 <= i < |ds| ==> ds[i] < base
  }

  ghost function Value(base: nat, ds: seq<nat>): nat {
    if ds == [] then 0 else Value(base, ds[..|ds| - 1]) * base + ds[|ds| - 1]
  }

  /** The digits of `v` without leading zeros; zero has no digits. */
  ghost function Numeral(base: nat, v: nat): (ds: seq<nat>)
    requires base > 1
    ensures Below(base, ds)
    ensures ds == [] <==> v == 0
    ensures ds != [] ==> ds[0] != 0
    decreases v
  {
    if v == 0 then [] else
      Shrinks(base, v);
      Numeral(base, v / base) + [v % base]
  }

  lemma Shrinks(base: nat, v: nat)
    requires base > 1 && v > 0
    ensures v / base < v && v == (v / base) * base + v % base
    ensures v < base ==> v / base == 0
  {
    var q, r := v / base, v % base;
    assert v == q * base + r;
    if q >= 1 {
      MulMono(q, 2, base);
      MulMono(base, 1, q);
    }
  }

  lemma MulMono(a: nat, b: nat, c: nat)
    requires b <= c
    ensures a * b <= a * c
  {
  }

  lemma ValueSnoc(base: nat, ds: seq<nat>, d: nat)
    ensures Value(base, ds + [d]) == Value(base, ds) * base + d
  {
    assert (ds + [d])[..|ds|] == ds;
  }

  lemma {:induction false} NumeralValue(base: nat, v: nat)
    requires base > 1
    ensures Value(base, Numeral(base, v)) == v
    decreases v
  {
    if v > 0 {
      Shrinks(base, v);
      NumeralValue(base, v / base);
      ValueSnoc(base, Numeral(base, v / base), v % base);
    }
  }

  lemma DivMod(base: nat, q: nat, r: nat)
    requires r < base
    ensures (q * base + r) / base == q && (q * base + r) % base == r
  {
    var n := q * base + r;
    assert n == (n / base) * base + n % base;
    var k := n / base - q;
    assert k * base == r - n % base;
    assert k > 0 ==> k * base >= base;
    assert k < 0 ==> k * base <= -(base as int);
  }

  lemma NumeralSnoc(base: nat, v: nat, d: nat)
    requires base > 1 && d < base && v * base + d > 0
    ensures Numeral(base, v * base + d) == Numeral(base, v) + [d]
  {
    DivMod(base, v, d);
  }

  lemma SnocPositive(base: nat, v: nat, d: nat)
    requires base > 0 && (v > 0 || d > 0)
    ensures v * base + d > 0
  {
  }

  /** A list of digits without a leading zero is the numeral of its value. */
  lemma {:induction false} NumeralUnique(base: nat, ds: seq<nat>)
    requires base > 1 && Below(base, ds) && (ds != [] ==> ds[0] != 0)
    ensures Numeral(base, Value(base, ds)) == ds
    decreases |ds|
  {
    if ds != [] {
      var front, last := ds[..|ds| - 1], ds[|ds| - 1];
      NumeralUnique(base, front);
      assert ds == front + [last];
      SnocPositive(base, Value(base, front), last);
      NumeralSnoc(base, Value(base, front), last);
    }
  }

  lemma BoundStep(base: nat, q: nat, last: nat, p: nat)
    requires q < p && last < base
    ensures q * base + last < base * p
  {
    assert base * p == base * (p - q - 1) + base * q + base;
    assert base * (p - q - 1) >= 0;
  }

  lemma {:induction false} ValueBound(base: nat, ds: seq<nat>)
    requires Below(base, ds)
    ensures Value(base, ds) < Pow(base, |ds|)
    decreases |ds|
  {
    if ds != [] {
      var front := ds[..|ds| - 1];
      ValueBound(base, front);
      BoundStep(base, Value(base, front), ds[|ds| - 1], Pow(base, |front|));
    }
  }

  lemma {:induction false} PowPositive(base: nat, n: nat)
    requires base > 0
    ensures Pow(base, n) > 0
  {
    if n > 0 { PowPositive(base, n - 1); }
  }

  lemma QuotientBelow(base: nat, q: nat, r: nat, p: nat)
    requires q * base + r < base * p
    ensures q < p
  {
    assert q >= p ==> q * base >= p * base;
  }

  lemma {:induction false} NumeralLength(base: nat, v: nat, n: nat)
    requires base > 1 && v < Pow(base, n)
    ensures |Numeral(base, v)| <= n
    decreases n
  {
    if v > 0 {
      Shrinks(base, v);
      QuotientBelow(base, v / base, v % base, Pow(base, n - 1));
      NumeralLength(base, v / base, n - 1);
    }
  }

  // ---------- bytes and characters ----------

  function Nats(bs: Text): (ns: seq<nat>)
    ensures |ns| == |bs| && forall i :: 0 <= i < |ns| ==> ns[i] == bs[i] as nat
  {
    seq(|bs|, i requires 0 <= i < |bs| => bs[i] as nat)
  }

  /** A byte string as one big-endian integer. */
  ghost function Number(bs: Text): nat {
    Value(256, Nats(bs))
  }

  lemma NumberSnoc(bs: Text, b: byte)
    ensures Number(bs + [b]) == Number(bs) * 256 + b as nat
  {
    assert Nats(bs + [b]) == Nats(bs) + [b as nat];
    ValueSnoc(256, Nats(bs), b as nat);
  }

  lemma NumberUnique(a: Text, b: Text)
    requires (a != [] ==> a[0] != 0) && (b != [] ==> b[0] != 0)
    requires Number(a) == Number(b)
    ensures a == b
  {
    NumeralUnique(256, Nats(a));
    NumeralUnique(256, Nats(b));
    assert Nats(a) == Nats(b);
    forall i | 0 <= i < |a| ensures a[i] == b[i] { assert Nats(a)[i] == Nats(b)[i]; }
  }

  /** The alphabet: digits, then capitals, then small letters. */
  function DigitChar(d: nat): (c: byte)
    requires d < 62
  {
    if d < 10 then (48 + d) as byte else if d < 36 then (55 + d) as byte else (61 + d) as byte
  }

  /** `b62_char_to_digit`. */
  function CharDigit(c: byte): (d: Option<nat>)
    ensures d.Some? ==> d.value < 62 && DigitChar(d.value) == c
  {
    if 48 <= c <= 57 then Some(c as nat - 48)
    else if 65 <= c <= 90 then Some(c as nat - 55)
    else if 97 <= c <= 122 then Some(c as nat - 61)
    else None
  }

  /** The characters are the ASCII digits and letters, and they stand for ascending digits in
      the order of their codes. Only one alphabet does both. */
  lemma Alphabet(c: byte)
    ensures (exists d: nat :: d < 62 && DigitChar(d) == c) <==> Alphanumeric(c as nat)
    ensures forall d, e :: 0 <= d < e < 62 ==> DigitChar(d) < DigitChar(e)
  {
    if Alphanumeric(c as nat) { assert DigitChar(CharDigit(c).value) == c; }
  }

  predicate Alphanumeric(c: nat) {
    || '0' as nat <= c <= '9' as nat
    || 'A' as nat <= c <= 'Z' as nat
    || 'a' as nat <= c <= 'z' as nat
  }

  /** Reading back a written digit. */
  lemma DigitRoundTrip(d: nat)
    requires d < 62
    ensures CharDigit(DigitChar(d)) == Some(d)
  {
  }

  ghost predicate Legible(s: Text) {
    forall i :: 0 <= i < |s| ==> CharDigit(s[i]).Some?
  }

  ghost function DigitsOf(s: Text): (ds: seq<nat>)
    requires Legible(s)
    ensures |ds| == |s| && Below(62, ds) && forall i :: 0 <= i < |s| ==> Some(ds[i]) == CharDigit(s[i])
  {
    seq(|s|, i requires 0 <= i < |s| => CharDigit(s[i]).value)
  }

  ghost function Written(ds: seq<nat>): (s: Text)
    requires Below(62, ds)
    ensures |s| == |ds| && forall i :: 0 <= i < |s| ==> s[i] == DigitChar(ds[i])
  {
    seq(|ds|, i requires 0 <= i < |ds| => DigitChar(ds[i]))
  }

  lemma WrittenRead(ds: seq<nat>)
    requires Below(62, ds)
    ensures Legible(Written(ds)) && DigitsOf(Written(ds)) == ds
  {
    forall i | 0 <= i < |ds| ensures CharDigit(Written(ds)[i]) == Some(ds[i]) { DigitRoundTrip(ds[i]); }
  }

  lemma ReadWritten(s: Text)
    requires Legible(s)
    ensures Written(DigitsOf(s)) == s
  {
  }

  /** The digits that `Encode` writes for `v`: its numeral, or a single zero. */
  ghost function Shown(v: nat): (ds: seq<nat>)
    ensures Below(62, ds)
  {
    if v == 0 then [0] else Numeral(62, v)
  }

  /** What encoding is to produce: the base-62 numeral, with "0" for zero. */
  ghost function Encoded(bs: Text): Text {
    Written(Shown(Number(bs)))
  }

  /** The bytes, without leading zeros, of the number a legible string stands for. */
  ghost predicate IsDecoded(s: Text, bs: Text) {
    && Legible(s) && Number(bs) == Value(62, DigitsOf(s))
    && (bs != [] ==> bs[0] != 0)
  }

  // ---------- the conversions ----------

  lemma DivStep(head: nat, quotient: nat, rem: nat, b: nat)
    requires head == 62 * quotient + rem && rem < 62 && b < 256
    ensures (rem * 256 + b) / 62 < 256
    ensures head * 256 + b == 62 * (quotient * 256 + (rem * 256 + b) / 62) + (rem * 256 + b) % 62
  {
  }

  /** `b62_divmod`: long division by 62, in place. */
  method DivModInPlace(a: array<byte>) returns (rem: nat)
    modifies a
    ensures rem < 62
    ensures Number(old(a[..])) == 62 * Number(a[..]) + rem
  {
    rem := 0;
    ghost var was := a[..];
    for i := 0 to a.Length
      invariant rem < 62
      invariant a[i..] == was[i..]
      invariant Number(was[..i]) == 62 * Number(a[..i]) + rem
    {
      ghost var done := a[..i];
      var val := rem * 256 + a[i] as nat;
      DivStep(Number(was[..i]), Number(done), rem, a[i] as nat);
      NumberSnoc(was[..i], was[i]);
      NumberSnoc(done, (val / 62) as byte);
      assert a[i] == a[i..][0] == was[i];
      assert was[..i + 1] == was[..i] + [was[i]];
      a[i] := (val / 62) as byte;
      assert a[..i + 1] == done + [(val / 62) as byte];
      assert a[i + 1..] == was[i + 1..];
      rem := val % 62;
    }
    assert a[..a.Length] == a[..] && was[..a.Length] == was;
  }

  lemma {:induction false} ZeroNumber(bs: Text)
    ensures Number(bs) == 0 <==> forall i :: 0 <= i < |bs| ==> bs[i] == 0
    decreases |bs|
  {
    if bs != [] {
      var front, last := bs[..|bs| - 1], bs[|bs| - 1];
      ZeroNumber(front);
      assert bs == front + [last];
      NumberSnoc(front, last);
    }
  }

  method AllZero(a: array<byte>) returns (b: bool)
    ensures b <==> Number(a[..]) == 0
  {
    ZeroNumber(a[..]);
    for i := 0 to a.Length
      invariant forall k :: 0 <= k < i ==> a[k] == 0
    {
      if a[i] != 0 {
        assert a[..][i] != 0;
        return false;
      }
    }
    return true;
  }

  method Reverse(s: Text) returns (r: Text)
    ensures |r| == |s| && forall i :: 0 <= i < |s| ==> r[i] == s[|s| - 1 - i]
  {
    r := [];
    for i := 0 to |s|
      invariant |r| == i && forall k :: 0 <= k < i ==> r[k] == s[i - 1 - k]
    {
      r := [s[i]] + r;
    }
  }

  /** `digits` are the characters of `ds`, last digit first. */
  ghost predicate Backwards(digits: Text, ds: seq<nat>) {
    && Below(62, ds) && |ds| == |digits|
    && forall i :: 0 <= i < |ds| ==> digits[i] == DigitChar(ds[|ds| - 1 - i])
  }

  lemma BackwardsStep(digits: Text, ds: seq<nat>, rem: nat)
    requires Backwards(digits, ds) && rem < 62
    ensures Backwards(digits + [DigitChar(rem)], [rem] + ds)
  {
  }

  lemma BackwardsReversed(digits: Text, ds: seq<nat>, out: Text)
    requires Backwards(digits, ds)
    requires |out| == |digits| && forall i :: 0 <= i < |out| ==> out[i] == digits[|out| - 1 - i]
    ensures out == Written(ds)
  {
    forall i | 0 <= i < |out| ensures out[i] == DigitChar(ds[i]) {
      assert digits[|out| - 1 - i] == DigitChar(ds[|ds| - 1 - (|out| - 1 - i)]);
    }
  }

  /** The state of the encoding loop: `n` is what is left of `v` after the digits `ds`. */
  ghost predicate Encoding(v: nat, n: nat, ds: seq<nat>) {
    Shown(v) == Numeral(62, n) + ds
  }

  lemma FirstDigit(v: nat, q: nat, rem: nat)
    requires v == 62 * q + rem && rem < 62
    ensures Encoding(v, q, [rem])
  {
    if v > 0 {
      DivMod(62, q, rem);
    } else {
      assert Numeral(62, 0) + [0] == [0];
    }
  }

  lemma NextDigit(v: nat, n: nat, ds: seq<nat>, q: nat, rem: nat)
    requires Encoding(v, n, ds) && n > 0 && n == 62 * q + rem && rem < 62
    ensures Encoding(v, q, [rem] + ds)
  {
    DivMod(62, q, rem);
    assert Numeral(62, q) + [rem] + ds == Numeral(62, q) + ([rem] + ds);
  }

  /** `ticket_base62_encode`. */
  method Encode(bytes: Text) returns (s: Text)
    ensures s == Encoded(bytes)
  {
    var n := new byte[|bytes|](i requires 0 <= i < |bytes| => bytes[i]);
    assert n[..] == bytes;
    ghost var v := Number(bytes);
    var rem := DivModInPlace(n);
    var digits := [DigitChar(rem)];
    ghost var ds := [rem];
    FirstDigit(v, Number(n[..]), rem);
    var zero := AllZero(n);
    while !zero
      invariant Encoding(v, Number(n[..]), ds) && Backwards(digits, ds)
      invariant zero <==> Number(n[..]) == 0
      decreases Number(n[..])
    {
      ghost var left := Number(n[..]);
      rem := DivModInPlace(n);
      NextDigit(v, left, ds, Number(n[..]), rem);
      BackwardsStep(digits, ds, rem);
      digits, ds := digits + [DigitChar(rem)], [rem] + ds;
      zero := AllZero(n);
    }
    s := Reverse(digits);
    assert [] + ds == ds;
    BackwardsReversed(digits, ds, s);
  }

  // ---------- multiply and add ----------

  /** From position `i` on, `bytes` is `was` times 62 plus the digit, less the carry. */
  ghost predicate Multiplied(was: Text, bytes: Text, i: nat, carry: nat, digit: nat) {
    && i <= |was| == |bytes| && carry < 62
    && bytes[..i] == was[..i]
    && carry * Pow(256, |was| - i) + Number(bytes[i..]) == Number(was[i..]) * 62 + digit
    && (i == 0 && carry == 0 && was != [] ==> bytes[0] != 0)
  }

  lemma MultipliedStart(was: Text, digit: nat)
    requires digit < 62 && (was != [] ==> was[0] != 0)
    ensures Multiplied(was, was, |was|, digit, digit)
  {
    assert Nats(was[|was|..]) == [];
  }

  lemma ByteSplit(val: nat)
    requires val < 256 * 62
    ensures 256 * (val / 256) + val % 256 == val && val / 256 < 62
    ensures val / 256 == 0 && val >= 1 ==> val % 256 != 0
  {
  }

  lemma MultipliedStep(was: Text, bytes: Text, i: nat, carry: nat, digit: nat, val: nat)
    requires Multiplied(was, bytes, i + 1, carry, digit) && was[0] != 0
    requires val == bytes[i] as nat * 62 + carry
    ensures val / 256 < 62 && Multiplied(was, bytes[i := (val % 256) as byte], i, val / 256, digit)
  {
    var out := (val % 256) as byte;
    assert bytes[i] == bytes[..i + 1][i] == was[i];
    assert was[i..][1..] == was[i + 1..];
    ByteSplit(val);
    MulStep(was[i..], bytes[i + 1..], out, carry, val / 256, digit);
    assert bytes[i := out][i..] == [out] + bytes[i + 1..];
    assert bytes[i := out][..i] == was[..i];
  }

  /** What is left to do is to put the carry in front. */
  ghost predicate Carrying(was: Text, bytes: Text, carry: nat, digit: nat) {
    && carry < 62
    && carry * Pow(256, |bytes|) + Number(bytes) == Number(was) * 62 + digit
    && (carry == 0 && bytes != [] ==> bytes[0] != 0)
  }

  lemma MultipliedAll(was: Text, bytes: Text, carry: nat, digit: nat)
    requires Multiplied(was, bytes, 0, carry, digit)
    ensures Carrying(was, bytes, carry, digit)
  {
    assert bytes[0..] == bytes && was[0..] == was;
  }

  lemma CarryOut(was: Text, bytes: Text, carry: nat, digit: nat)
    requires Carrying(was, bytes, carry, digit) && carry > 0
    ensures Carrying(was, [(carry % 256) as byte] + bytes, carry / 256, digit)
  {
    assert carry % 256 == carry && carry / 256 == 0;
    NumberCons(carry as byte, bytes);
  }

  /** A growable byte buffer holding a big-endian number without leading zeros. */
  class Buffer {
    var bytes: Text

    constructor ()
      ensures bytes == []
    {
      bytes := [];
    }

    /** `b62_mul_add`: times 62 plus a digit, in place, growing at the front by what is carried. */
    method MulAdd(digit: nat)
      requires digit < 62 && (bytes != [] ==> bytes[0] != 0)
      modifies this
      ensures Number(bytes) == Number(old(bytes)) * 62 + digit
      ensures bytes != [] ==> bytes[0] != 0
    {
      var carry: nat := digit;
      var i: nat := |bytes|;
      ghost var was := bytes;
      MultipliedStart(was, digit);
      while i > 0
        invariant Multiplied(was, bytes, i, carry, digit)
      {
        i := i - 1;
        var val := bytes[i] as nat * 62 + carry;
        MultipliedStep(was, bytes, i, carry, digit, val);
        bytes := bytes[i := (val % 256) as byte];
        carry := val / 256;
      }
      MultipliedAll(was, bytes, carry, digit);
      while carry > 0
        invariant Carrying(was, bytes, carry, digit)
      {
        CarryOut(was, bytes, carry, digit);
        bytes := [(carry % 256) as byte] + bytes;
        carry := carry / 256;
      }
    }
  }

  lemma ConsArith(b: nat, p: nat, n: nat, last: nat)
    ensures (b * p + n) * 256 + last == b * (256 * p) + (n * 256 + last)
  {
  }

  lemma {:induction false} NumberCons(b: byte, bs: Text)
    ensures Number([b] + bs) == b as nat * Pow(256, |bs|) + Number(bs)
    decreases |bs|
  {
    if bs == [] {
      assert [b] + bs == [] + [b];
      NumberSnoc([], b);
    } else {
      var front, last := bs[..|bs| - 1], bs[|bs| - 1];
      NumberCons(b, front);
      assert [b] + bs == ([b] + front) + [last] && bs == front + [last];
      NumberSnoc([b] + front, last);
      NumberSnoc(front, last);
      PowNext(256, |front|);
      ConsArith(b as nat, Pow(256, |front|), Number(front), last as nat);
    }
  }

  /** One step of the multiplication, on the number from this byte on. */
  lemma MulStep(was: Text, later: Text, out: byte, carry: nat, q: nat, digit: nat)
    requires was != [] && |later| == |was| - 1
    requires 256 * q + out as nat == was[0] as nat * 62 + carry
    requires carry * Pow(256, |later|) + Number(later) == Number(was[1..]) * 62 + digit
    ensures q * Pow(256, |was|) + Number([out] + later) == Number(was) * 62 + digit
  {
    var p, tail := Pow(256, |later|), Number(was[1..]);
    assert Number([out] + later) == out as nat * p + Number(later) by { NumberCons(out, later); }
    assert Number(was) == was[0] as nat * p + tail by {
      assert was == [was[0]] + was[1..];
      NumberCons(was[0], was[1..]);
    }
    assert Pow(256, |was|) == 256 * p by { PowNext(256, |later|); }
    MulArith(p, q, out as nat, was[0] as nat, carry, Number(later), tail, digit);
  }

  lemma PowNext(b: nat, n: nat)
    ensures Pow(b, n + 1) == b * Pow(b, n)
  {
  }

  lemma MulArith(p: nat, q: nat, r: nat, b: nat, carry: nat, later: nat, tail: nat, digit: nat)
    requires 256 * q + r == b * 62 + carry && carry * p + later == tail * 62 + digit
    ensures q * (256 * p) + (r * p + later) == (b * p + tail) * 62 + digit
  {
    assert q * (256 * p) + r * p == (256 * q + r) * p == (b * 62 + carry) * p;
    assert (b * 62 + carry) * p == b * p * 62 + carry * p;
  }

  // ---------- decoding ----------

  /** `ticket_base62_decode`, apart from its length check. */
  method DecodeDigits(s: Text) returns (r: Result<Text>)
    ensures r.Ok? <==> Legible(s)
    ensures r.Ok? ==> IsDecoded(s, r.value)
    ensures r.Err? ==> r.error == InvalidTicket
  {
    var buffer := new Buffer();
    for i := 0 to |s|
      invariant Legible(s[..i]) && Number(buffer.bytes) == Value(62, DigitsOf(s[..i]))
      invariant buffer.bytes != [] ==> buffer.bytes[0] != 0
      invariant fresh(buffer)
    {
      var digit := CharDigit(s[i]);
      if digit.None? { return Err(InvalidTicket); }
      buffer.MulAdd(digit.value);
      assert s[..i + 1] == s[..i] + [s[i]];
      assert DigitsOf(s[..i + 1]) == DigitsOf(s[..i]) + [digit.value];
      ValueSnoc(62, DigitsOf(s[..i]), digit.value);
    }
    assert s[..|s|] == s;
    return Ok(buffer.bytes);
  }

  // ---------- the conversion is a bijection ----------

  lemma EncodedLegible(bs: Text)
    ensures Legible(Encoded(bs)) && Value(62, DigitsOf(Encoded(bs))) == Number(bs)
    ensures Encoded(bs) != []
  {
    if Number(bs) == 0 {
      WrittenRead([0]);
      ValueSnoc(62, [], 0);
      assert [] + [0] == [0];
    } else {
      WrittenRead(Numeral(62, Number(bs)));
      NumeralValue(62, Number(bs));
    }
  }

  /** Decoding an encoded byte string gives it back exactly if it has no leading zero byte. */
  lemma DecodeEncoded(bs: Text, back: Text)
    requires IsDecoded(Encoded(bs), back)
    ensures back == bs <==> (bs != [] ==> bs[0] != 0)
  {
    EncodedLegible(bs);
    if bs != [] ==> bs[0] != 0 { NumberUnique(bs, back); }
  }

  /** Encoding a decoded string gives it back exactly if it is "0" or does not start with '0'. */
  lemma EncodeDecoded(s: Text, bs: Text)
    requires s != [] && IsDecoded(s, bs)
    ensures Encoded(bs) == s <==> s == [DigitChar(0)] || s[0] != DigitChar(0)
  {
    var ds := DigitsOf(s);
    ReadWritten(s);
    if s[0] != DigitChar(0) {
      assert ds[0] != 0;
      NumeralUnique(62, ds);
    } else if s == [DigitChar(0)] {
      assert ds == [] + [0];
      ValueSnoc(62, [], 0);
    } else {
      assert ds[0] == 0 && Written([0]) == [DigitChar(0)];
      WrittenRead(Numeral(62, Number(bs)));
    }
  }

  // ---------- how long an encoding can be ----------

  lemma Associate(x: nat, y: nat, z: nat)
    ensures x * (y * z) == (x * y) * z
  {
  }

  lemma {:induction false} PowAdd(b: nat, m: nat, n: nat)
    ensures Pow(b, m + n) == Pow(b, m) * Pow(b, n)
    decreases m
  {
    if m > 0 {
      PowAdd(b, m - 1, n);
      Associate(b, Pow(b, m - 1), Pow(b, n));
    }
  }

  lemma {:induction false} PowMono(b: nat, m: nat, n: nat)
    requires b > 0 && m <= n
    ensures Pow(b, m) <= Pow(b, n)
    decreases n
  {
    if m < n {
      PowMono(b, m, n - 1);
      PowPositive(b, n - 1);
      MulMono(Pow(b, n - 1), 1, b);
    }
  }

  lemma PowSmall()
    ensures Pow(2, 8) == 256 && Pow(2, 11) == 2048 && Pow(62, 2) == 3844
  {
    assert Pow(2, 4) == 16;
    assert Pow(2, 8) == 256;
  }

  /** Eleven bits fit into two characters. */
  lemma {:induction false} TwoCharacters(m: nat)
    ensures Pow(2, 11 * m) <= Pow(62, 2 * m)
    decreases m
  {
    if m > 0 {
      TwoCharacters(m - 1);
      PowSmall();
      PowAdd(2, 11, 11 * (m - 1));
      PowAdd(62, 2, 2 * (m - 1));
      assert 11 * m == 11 + 11 * (m - 1) && 2 * m == 2 + 2 * (m - 1);
      PowPositive(62, 2 * (m - 1));
      var x, y := Pow(2, 11 * (m - 1)), Pow(62, 2 * (m - 1));
      assert 2048 * x <= 2048 * y <= 3844 * y;
    }
  }

  lemma {:induction false} ByteBits(n: nat)
    ensures Pow(256, n) == Pow(2, 8 * n)
    decreases n
  {
    if n > 0 {
      ByteBits(n - 1);
      PowSmall();
      PowAdd(2, 8, 8 * (n - 1));
      assert 8 * n == 8 + 8 * (n - 1);
    }
  }

  /** `n` bytes need at most two characters for every eleven bits, rounded up. */
  lemma EncodedLength(bs: Text)
    ensures |Encoded(bs)| <= 2 * ((8 * |bs| + 10) / 11) || |Encoded(bs)| == 1
  {
    var n := |bs|;
    var m := (8 * n + 10) / 11;
    ValueBound(256, Nats(bs));
    ByteBits(n);
    PowMono(2, 8 * n, 11 * m);
    TwoCharacters(m);
    NumeralLength(62, Number(bs), 2 * m);
  }
}
