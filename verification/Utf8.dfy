/** UTF-8 as Rust's `str::as_bytes` and `String::from_utf8` use it. */
module Utf8 {
  import opened Wrappers

  type byte = x: int | 0 <= x < 256

  function EncodeChar(c: char): (b: seq<byte>)
    ensures 1 <= |b| <= 4
    ensures c != '\0' ==> 0 !in b
  {
    var n := c as int;
    if n < 0x80 then [n]
    else if n < 0x800 then [0xC0 + n / 64, 0x80 + n % 64]
    else if n < 0x1_0000 then [0xE0 + n / 4096, 0x80 + n / 64 % 64, 0x80 + n % 64]
    else [0xF0 + n / 262144, 0x80 + n / 4096 % 64, 0x80 + n / 64 % 64, 0x80 + n % 64]
  }

  function Encode(s: string): seq<byte> {
    if s == "" then [] else EncodeChar(s[0]) + Encode(s[1..])
  }

  /** The code point a leading byte and its successors spell, -1 when they spell none. */
  function CodePoint(b: seq<byte>): int
    requires b != []
  {
    if b[0] < 0x80 then b[0]
    else if b[0] < 0xE0 && |b| >= 2 then (b[0] as int - 0xC0) * 64 + (b[1] as int - 0x80)
    else if 0xE0 <= b[0] < 0xF0 && |b| >= 3 then
      (b[0] as int - 0xE0) * 4096 + (b[1] as int - 0x80) * 64 + (b[2] as int - 0x80)
    else if 0xF0 <= b[0] && |b| >= 4 then
      (b[0] as int - 0xF0) * 262144 + (b[1] as int - 0x80) * 4096 + (b[2] as int - 0x80) * 64 + (b[3] as int - 0x80)
    else -1
  }

  predicate IsScalar(n: int) {
    0 <= n < 0xD800 || 0xE000 <= n < 0x11_0000
  }

  /** Strict decoding: overlong forms, surrogates and cut-off sequences are rejected,
      because the spelled scalar must encode back to the same bytes. */
  function Decode(b: seq<byte>): Option<string>
    decreases |b|
  {
    if b == [] then Some("")
    else
      var n := CodePoint(b);
      if !IsScalar(n) then None
      else
        var e := EncodeChar(n as char);
        if !(e <= b) then None
        else
          match Decode(b[|e|..])
          case None => None
          case Some(rest) => Some([n as char] + rest)
  }

  lemma CodePointOfEncoding(c: char, rest: seq<byte>)
    ensures CodePoint(EncodeChar(c) + rest) == c as int
  {
    var n := c as int;
    if n >= 0x1_0000 {
      Sextets(n);
      FourBytes(n / 262144, n / 4096 % 64, n / 64 % 64, n % 64, rest);
    } else if n >= 0x800 {
      Sextets(n);
      ThreeBytes(n / 4096, n / 64 % 64, n % 64, rest);
    } else if n >= 0x80 {
      TwoBytes(n / 64, n % 64, rest);
    }
  }

  lemma Sextets(n: nat)
    ensures n == n / 262144 * 262144 + n / 4096 % 64 * 4096 + n / 64 % 64 * 64 + n % 64
    ensures n < 0x1_0000 ==> n == n / 4096 * 4096 + n / 64 % 64 * 64 + n % 64
  {
  }

  lemma TwoBytes(a: nat, b: nat, rest: seq<byte>)
    requires a < 32 && b < 64
    ensures CodePoint([0xC0 + a, 0x80 + b] + rest) == a * 64 + b
  {
  }

  lemma ThreeBytes(a: nat, b: nat, c: nat, rest: seq<byte>)
    requires a < 16 && b < 64 && c < 64
    ensures CodePoint([0xE0 + a, 0x80 + b, 0x80 + c] + rest) == a * 4096 + b * 64 + c
  {
  }

  lemma FourBytes(a: nat, b: nat, c: nat, d: nat, rest: seq<byte>)
    requires a < 8 && b < 64 && c < 64 && d < 64
    ensures CodePoint([0xF0 + a, 0x80 + b, 0x80 + c, 0x80 + d] + rest) == a * 262144 + b * 4096 + c * 64 + d
  {
  }

  lemma {:induction false} DecodeEncode(s: string)
    ensures Decode(Encode(s)) == Some(s)
  {
    if s != "" {
      DecodeEncode(s[1..]);
      var e, b := EncodeChar(s[0]), Encode(s);
      CodePointOfEncoding(s[0], Encode(s[1..]));
      assert e <= b && b[|e|..] == Encode(s[1..]);
      assert s == [s[0]] + s[1..];
    }
  }

  lemma DecodeStep(b: seq<byte>) returns (c: char, rest: seq<byte>)
    requires b != [] && Decode(b).Some?
    ensures b == EncodeChar(c) + rest && |rest| < |b|
    ensures Decode(rest).Some? && Decode(b).value == [c] + Decode(rest).value
  {
    c := CodePoint(b) as char;
    rest := b[|EncodeChar(c)|..];
  }

  lemma EncodeCons(c: char, s: string)
    ensures Encode([c] + s) == EncodeChar(c) + Encode(s)
  {
    assert ([c] + s)[1..] == s;
  }

  /** Decoding succeeds only on the encoding of its own result. */
  lemma {:induction false} EncodeDecode(b: seq<byte>)
    ensures Decode(b).Some? ==> Encode(Decode(b).value) == b
    decreases |b|
  {
    if b != [] && Decode(b).Some? {
      var c, rest := DecodeStep(b);
      EncodeDecode(rest);
      EncodeCons(c, Decode(rest).value);
    }
  }

  lemma {:induction false} EncodeAppend(s: string, t: string)
    ensures Encode(s + t) == Encode(s) + Encode(t)
  {
    if s == "" {
      assert s + t == t;
    } else {
      EncodeAppend(s[1..], t);
      assert (s + t)[1..] == s[1..] + t && (s + t)[0] == s[0];
      Associative(EncodeChar(s[0]), Encode(s[1..]), Encode(t));
    }
  }

  lemma Associative(a: seq<byte>, b: seq<byte>, c: seq<byte>)
    ensures a + (b + c) == (a + b) + c
  {
  }

  lemma EncodeInjective(s: string, t: string)
    requires Encode(s) == Encode(t)
    ensures s == t
  {
    DecodeEncode(s);
    DecodeEncode(t);
  }

  lemma {:induction false} EncodeNulFree(s: string)
    requires '\0' !in s
    ensures 0 !in Encode(s)
  {
    if s != "" {
      assert s[0] in s;
      forall c | c in s[1..] ensures c != '\0' { assert c in s; }
      EncodeNulFree(s[1..]);
    }
  }

  /** `str::len`, the length in bytes. */
  function Length(s: string): nat {
    |Encode(s)|
  }

  predicate IsAscii(s: string) {
    forall c :: c in s ==> c < 128 as char
  }

  lemma {:induction false} AsciiLength(s: string)
    requires IsAscii(s)
    ensures Length(s) == |s|
  {
    if s != "" {
      assert s[0] in s;
      forall c | c in s[1..] ensures c in s {}
      AsciiLength(s[1..]);
    }
  }
}
