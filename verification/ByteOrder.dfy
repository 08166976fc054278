/** Rust compares strings by their bytes; UTF-8 keeps the order of code points. */
module ByteOrder {
  import opened Text
  import opened Utf8

  /** Strict lexicographic order on bytes, what `str::cmp` decides by. */
  predicate BytesLess(a: seq<byte>, b: seq<byte>)
    decreases |a|
  {
    && b != []
    && (a == [] || a[0] < b[0] || (a[0] == b[0] && BytesLess(a[1..], b[1..])))
  }

  lemma {:induction false} BytesAsymmetric(a: seq<byte>, b: seq<byte>)
    requires BytesLess(a, b)
    ensures !BytesLess(b, a)
    decreases |a|
  {
    if a != [] && a[0] == b[0] {
      BytesAsymmetric(a[1..], b[1..]);
    }
  }

  lemma {:induction false} CommonPrefix(p: seq<byte>, x: seq<byte>, y: seq<byte>)
    requires BytesLess(x, y)
    ensures BytesLess(p + x, p + y)
  {
    if p == [] {
      assert p + x == x && p + y == y;
    } else {
      CommonPrefix(p[1..], x, y);
      assert (p + x)[1..] == p[1..] + x && (p + y)[1..] == p[1..] + y;
    }
  }

  /** The first differing byte decides, whatever follows. */
  lemma FirstDifference(e: seq<byte>, f: seq<byte>, i: nat, x: seq<byte>, y: seq<byte>)
    requires i < |e| && i < |f| && e[..i] == f[..i] && e[i] < f[i]
    ensures BytesLess(e + x, f + y)
  {
    CommonPrefix(e[..i], e[i..] + x, f[i..] + y);
    assert e + x == e[..i] + (e[i..] + x) && f + y == f[..i] + (f[i..] + y);
  }

  /** The first place where the encodings of two characters differ. */
  lemma CharDifference(c: char, d: char) returns (i: nat)
    requires c < d
    ensures i < |EncodeChar(c)| && i < |EncodeChar(d)|
    ensures EncodeChar(c)[..i] == EncodeChar(d)[..i] && EncodeChar(c)[i] < EncodeChar(d)[i]
  {
    if |EncodeChar(c)| < |EncodeChar(d)| || d as int < 0x80 {
      i := 0;
    } else if d as int < 0x800 {
      i := TwoByteDifference(c, d);
    } else if d as int < 0x1_0000 {
      i := ThreeByteDifference(c, d);
    } else {
      i := FourByteDifference(c, d);
    }
  }

  lemma TwoByteDifference(c: char, d: char) returns (i: nat)
    requires 0x80 <= c as int < d as int < 0x800
    ensures i < 2 && EncodeChar(c)[..i] == EncodeChar(d)[..i] && EncodeChar(c)[i] < EncodeChar(d)[i]
  {
    var m, n := c as int, d as int;
    Digits(m, n);
    i := if m / 64 < n / 64 then 0 else 1;
  }

  lemma ThreeByteDifference(c: char, d: char) returns (i: nat)
    requires 0x800 <= c as int < d as int < 0x1_0000
    ensures i < 3 && EncodeChar(c)[..i] == EncodeChar(d)[..i] && EncodeChar(c)[i] < EncodeChar(d)[i]
  {
    var m, n := c as int, d as int;
    Digits(m, n);
    i := if m / 4096 < n / 4096 then 0 else if m / 64 < n / 64 then 1 else 2;
  }

  lemma FourByteDifference(c: char, d: char) returns (i: nat)
    requires 0x1_0000 <= c as int < d as int
    ensures i < 4 && EncodeChar(c)[..i] == EncodeChar(d)[..i] && EncodeChar(c)[i] < EncodeChar(d)[i]
  {
    var m, n := c as int, d as int;
    Digits(m, n);
    i := if m / 262144 < n / 262144 then 0 else if m / 4096 < n / 4096 then 1 else if m / 64 < n / 64 then 2 else 3;
  }

  /** Of two numbers with equal leading sextets, the last ones decide. */
  lemma LastDigit(m: nat, n: nat)
    requires m < n
    ensures m / 64 <= n / 64
    ensures m / 64 == n / 64 ==> m % 64 < n % 64
  {
  }

  lemma Digits(m: nat, n: nat)
    requires m < n
    ensures m / 64 <= n / 64 && m / 4096 <= n / 4096 && m / 262144 <= n / 262144
    ensures m / 64 == n / 64 ==> m % 64 < n % 64
    ensures m / 4096 == n / 4096 && m / 64 < n / 64 ==> m / 64 % 64 < n / 64 % 64
    ensures m / 262144 == n / 262144 && m / 4096 < n / 4096 ==> m / 4096 % 64 < n / 4096 % 64
  {
    Nested(m);
    Nested(n);
    LastDigit(m, n);
    if m / 64 < n / 64 { LastDigit(m / 64, n / 64); }
    if m / 4096 < n / 4096 { LastDigit(m / 4096, n / 4096); }
  }

  lemma Nested(m: nat)
    ensures m / 64 / 64 == m / 4096 && m / 4096 / 64 == m / 262144
  {
  }

  /** `Less` is the byte order of the encodings, so sorting by it is sorting as Rust does. */
  lemma LessIsByteOrder(a: string, b: string)
    ensures Less(a, b) <==> BytesLess(Encode(a), Encode(b))
  {
    LessTotal(a, b);
    if Less(a, b) {
      LessEncoded(a, b);
    } else if a != b {
      LessEncoded(b, a);
      BytesAsymmetric(Encode(b), Encode(a));
    } else if BytesLess(Encode(a), Encode(a)) {
      BytesAsymmetric(Encode(a), Encode(a));
      assert false;
    }
    if a == b && Less(a, a) {
      LessAsymmetric(a, a);
      assert false;
    }
  }

  lemma {:induction false} LessEncoded(a: string, b: string)
    requires Less(a, b)
    ensures BytesLess(Encode(a), Encode(b))
    decreases |a|
  {
    if a != "" {
      if a[0] == b[0] {
        LessEncoded(a[1..], b[1..]);
        CommonPrefix(EncodeChar(a[0]), Encode(a[1..]), Encode(b[1..]));
      } else {
        var i := CharDifference(a[0], b[0]);
        FirstDifference(EncodeChar(a[0]), EncodeChar(b[0]), i, Encode(a[1..]), Encode(b[1..]));
      }
    }
  }
}
