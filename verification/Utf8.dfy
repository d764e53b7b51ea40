/** UTF-8 (RFC 3629) as a strict decoder reads it: no overlong forms, no surrogates, nothing
    beyond the last code point.
 */
module Utf8 {
  import opened Wrappers
  import opened TextBasics

  function EncodeChar(c: char): (r: seq<Byte>)
    ensures |r| == CharBytes(c)
  {
    var n := c as int;
    if n < 0x80 then [n]
    else if n < 0x800 then [0xC0 + n / 64, 0x80 + n % 64]
    else if n < 0x10000 then [0xE0 + n / 4096, 0x80 + n / 64 % 64, 0x80 + n % 64]
    else [0xF0 + n / 262144, 0x80 + n / 4096 % 64, 0x80 + n / 64 % 64, 0x80 + n % 64]
  }

  function Encode(s: string): seq<Byte> {
    if s == "" then [] else EncodeChar(s[0]) + Encode(s[1..])
  }

  predicate IsContinuation(b: Byte) { 0x80 <= b < 0xC0 }

  function Join2(x: int, y: int): int { x * 64 + y }

  function Join3(x: int, y: int, z: int): int { x * 4096 + y * 64 + z }

  function Join4(w: int, x: int, y: int, z: int): int { w * 262144 + x * 4096 + y * 64 + z }

  /** The character at the front of some bytes, and how many of them spell it. */
  function DecodeChar(b: seq<Byte>): (r: Option<(char, nat)>)
    requires b != []
    ensures r.Some? ==> 1 <= r.value.1 <= |b|
  {
    if b[0] < 0x80 then Some((b[0] as char, 1))
    else if 0xC2 <= b[0] < 0xE0 && |b| >= 2 && IsContinuation(b[1]) then
      Some((Join2(b[0] - 0xC0, b[1] - 0x80) as char, 2))
    else if 0xE0 <= b[0] < 0xF0 && |b| >= 3 && IsContinuation(b[1]) && IsContinuation(b[2])
            && (b[0] == 0xE0 ==> b[1] >= 0xA0) && (b[0] == 0xED ==> b[1] < 0xA0) then
      Some((Join3(b[0] - 0xE0, b[1] - 0x80, b[2] - 0x80) as char, 3))
    else if 0xF0 <= b[0] < 0xF5 && |b| >= 4 && IsContinuation(b[1]) && IsContinuation(b[2]) && IsContinuation(b[3])
            && (b[0] == 0xF0 ==> b[1] >= 0x90) && (b[0] == 0xF4 ==> b[1] < 0x90) then
      Some((Join4(b[0] - 0xF0, b[1] - 0x80, b[2] - 0x80, b[3] - 0x80) as char, 4))
    else None
  }

  /** The text that some bytes spell, if they are well-formed. */
  function Decode(b: seq<Byte>): Option<string>
    decreases |b|
  {
    if b == [] then Some("")
    else
      var first := DecodeChar(b);
      if first.None? then None
      else
        var rest := Decode(b[first.value.1..]);
        if rest.None? then None else Some([first.value.0] + rest.value)
  }

  /* ---------- decoding and encoding undo each other ---------- */

  lemma {:induction false} DecodeEncodedChar(c: char, rest: seq<Byte>)
    ensures DecodeChar(EncodeChar(c) + rest) == Some((c, CharBytes(c)))
  {
    var n, b := c as int, EncodeChar(c) + rest;
    assert forall i :: 0 <= i < CharBytes(c) ==> b[i] == EncodeChar(c)[i];
    Digits(n);
  }

  /** A code point is its base-64 digits joined again. */
  lemma Digits(n: nat)
    ensures n == Join2(n / 64, n % 64)
    ensures n == Join3(n / 4096, n / 64 % 64, n % 64)
    ensures n == Join4(n / 262144, n / 4096 % 64, n / 64 % 64, n % 64)
  {
    var a := n / 64;
    var b := a / 64;
    assert n == a * 64 + n % 64 && a == b * 64 + a % 64 && b == b / 64 * 64 + b % 64;
    assert n / 4096 == b && n / 262144 == b / 64;
  }

  /** Joined digits come apart again. */
  lemma Joined(w: nat, x: nat, y: nat, z: nat)
    requires x < 64 && y < 64 && z < 64
    ensures var n := Join4(w, x, y, z);
            n / 262144 == w && n / 4096 % 64 == x && n / 64 % 64 == y && n % 64 == z
            && n / 64 == Join3(w, x, y) && n / 4096 == Join2(w, x)
  {
    var n, a, b := Join4(w, x, y, z), Join3(w, x, y), Join2(w, x);
    assert n == a * 64 + z && a == b * 64 + y && b == w * 64 + x;
    assert n / 64 == a && a / 64 == b && b / 64 == w;
    assert n / 4096 == b && n / 262144 == w;
  }

  lemma {:induction false} EncodeDecodedChar(b: seq<Byte>)
    requires b != [] && DecodeChar(b).Some?
    ensures var (c, n) := DecodeChar(b).value; EncodeChar(c) == b[..n]
  {
    var n := DecodeChar(b).value.1;
    if n == 2 {
      Joined(0, 0, b[0] - 0xC0, b[1] - 0x80);
    } else if n == 3 {
      Joined(0, b[0] - 0xE0, b[1] - 0x80, b[2] - 0x80);
    } else if n == 4 {
      Joined(b[0] - 0xF0, b[1] - 0x80, b[2] - 0x80, b[3] - 0x80);
    }
  }

  /** Every text is what its spelling decodes to. */
  lemma {:induction false} DecodeEncoded(s: string)
    ensures Decode(Encode(s)) == Some(s)
  {
    hide EncodeChar, DecodeChar;
    if s != "" {
      var c, rest := s[0], Encode(s[1..]);
      DecodeEncodedChar(c, rest);
      DecodeEncoded(s[1..]);
      assert Encode(s)[CharBytes(c)..] == rest;
      assert [c] + s[1..] == s;
    }
  }

  /** Only the spelling of a text decodes to it. */
  lemma {:induction false} EncodeDecoded(b: seq<Byte>)
    requires Decode(b).Some?
    ensures Encode(Decode(b).value) == b
    decreases |b|
  {
    hide EncodeChar, DecodeChar;
    if b != [] {
      var (c, n) := DecodeChar(b).value;
      EncodeDecodedChar(b);
      EncodeDecoded(b[n..]);
      var rest := Decode(b[n..]).value;
      assert Decode(b).value == [c] + rest;
      assert ([c] + rest)[1..] == rest;
      assert b[..n] + b[n..] == b;
    }
  }

  lemma {:induction false} EncodeConcat(a: string, b: string)
    ensures Encode(a + b) == Encode(a) + Encode(b)
  {
    hide EncodeChar;
    if a == "" {
      assert a + b == b;
    } else {
      assert (a + b)[1..] == a[1..] + b;
      EncodeConcat(a[1..], b);
      assert EncodeChar(a[0]) + (Encode(a[1..]) + Encode(b)) == EncodeChar(a[0]) + Encode(a[1..]) + Encode(b);
    }
  }

  /** Well-formed pieces make a well-formed whole. */
  lemma {:induction false} DecodeConcat(a: seq<Byte>, b: seq<Byte>)
    requires Decode(a).Some? && Decode(b).Some?
    ensures Decode(a + b) == Some(Decode(a).value + Decode(b).value)
  {
    hide Decode, Encode;
    EncodeDecoded(a);
    EncodeDecoded(b);
    EncodeConcat(Decode(a).value, Decode(b).value);
    DecodeEncoded(Decode(a).value + Decode(b).value);
  }

  /** The spelling is as long as the length in UTF-8 says. */
  lemma {:induction false} EncodedLength(s: string)
    ensures |Encode(s)| == ByteLen(s)
  {
    hide EncodeChar;
    if s != "" { EncodedLength(s[1..]); }
  }

  /** Only an ASCII character is spelled with a byte below 128, and that byte is its code. */
  lemma EncodedAscii(c: char, i: nat)
    requires i < CharBytes(c)
    ensures EncodeChar(c)[i] < 0x80 <==> c < '\U{80}'
    ensures c < '\U{80}' ==> EncodeChar(c) == [c as int]
  {
  }
}
