/** Model of the clipboard's base64 decoder (src/clipboard.rs) against the
    encoding of RFC 4648, section 4.
 */
module Base64 {
  import opened Wrappers

  const MAX_IMAGE_BYTES: nat := 12 * 1024 * 1024
  const PAD: Byte := 61

  datatype Error = InvalidCharacter | InvalidPadding | InvalidSuffix | TooLarge | Incomplete

  /* ---------- the decoder's own steps ---------- */

  /** Space, tab, line feed, form feed and carriage return. */
  predicate IsAsciiWhitespace(b: Byte) {
    b == 32 || b == 9 || b == 10 || b == 12 || b == 13
  }

  function Value(b: Byte): (r: Result<Byte, Error>)
    ensures r.Ok? ==> r.value < 64 && Symbol(r.value) == b
  {
    if 65 <= b <= 90 then Ok(b - 65)
    else if 97 <= b <= 122 then Ok(b - 97 + 26)
    else if 48 <= b <= 57 then Ok(b - 48 + 52)
    else if b == 43 then Ok(62)
    else if b == 47 then Ok(63)
    else Err(InvalidCharacter)
  }

  // The three bytes packed from four six-bit values. Left shifts of a byte drop the
  // high bits (`% 256`), and the two sides of each `or` share no bit, so it is a sum.
  function First(a: Byte, b: Byte): Byte
    requires a < 64 && b < 64
  {
    a * 4 % 256 + b / 16
  }

  function Second(b: Byte, c: Byte): Byte
    requires b < 64 && c < 64
  {
    b * 16 % 256 + c / 4
  }

  function Third(c: Byte, d: Byte): Byte
    requires c < 64 && d < 64
  {
    c * 64 % 256 + d
  }

  /** The bytes of one complete quartet, and whether padding closed the data. */
  function Quartet(q0: Byte, q1: Byte, q2: Byte, q3: Byte): Result<(seq<Byte>, bool), Error> {
    var a, b, c, d := Value(q0), Value(q1), Value(q2), Value(q3);
    if a.Err? then Err(a.error)
    else if b.Err? then Err(b.error)
    else
      var first := First(a.value, b.value);
      if q2 == PAD then
        if q3 == PAD then Ok(([first], true)) else Err(InvalidPadding)
      else if c.Err? then Err(c.error)
      else
        var second := Second(b.value, c.value);
        if q3 == PAD then Ok(([first, second], true))
        else if d.Err? then Err(d.error)
        else Ok(([first, second, Third(c.value, d.value)], false))
  }

  /** What the decoder makes of whitespace-free input `s` after it produced `output`. */
  ghost function DecodeFrom(s: seq<Byte>, output: seq<Byte>, finished: bool): Result<seq<Byte>, Error>
    decreases |s|
  {
    if s == [] then
      if output == [] then Err(Incomplete) else Ok(output)
    else if finished then Err(InvalidSuffix)
    else if |s| < 4 then Err(Incomplete)
    else
      var q := Quartet(s[0], s[1], s[2], s[3]);
      if q.Err? then Err(q.error)
      else if |output| + |q.value.0| > MAX_IMAGE_BYTES then Err(TooLarge)
      else DecodeFrom(s[4..], output + q.value.0, q.value.1)
  }

  ghost function Strip(input: seq<Byte>): seq<Byte> {
    if input == [] then []
    else if IsAsciiWhitespace(input[0]) then Strip(input[1..])
    else [input[0]] + Strip(input[1..])
  }

  /** Tabs, line feeds, form feeds, carriage returns and spaces are skipped, wherever they stand,
      and nothing else is. */
  lemma {:induction false} WhitespaceIsSkipped(a: seq<Byte>, w: Byte, b: seq<Byte>)
    ensures Strip(a + [w] + b) == if w in {9, 10, 12, 13, 32} then Strip(a + b) else Strip(a) + [w] + Strip(b)
    ensures Strip([]) == []
  {
    if a == [] {
      assert a + [w] + b == [w] + b && ([w] + b)[1..] == b && a + b == b;
    } else {
      assert (a + [w] + b)[1..] == a[1..] + [w] + b && (a + b)[1..] == a[1..] + b;
      WhitespaceIsSkipped(a[1..], w, b);
    }
  }

  /* ---------- RFC 4648, section 4 ---------- */

  function Symbol(v: Byte): Byte
    requires v < 64
  {
    if v < 26 then v + 65
    else if v < 52 then v - 26 + 97
    else if v < 62 then v - 52 + 48
    else if v == 62 then 43
    else 47
  }

  function EncodeGroup(x: Byte, y: Byte, z: Byte): seq<Byte> {
    [Symbol(x / 4), Symbol(x % 4 * 16 + y / 16), Symbol(y % 16 * 4 + z / 64), Symbol(z % 64)]
  }

  ghost function Encode(data: seq<Byte>): seq<Byte>
    decreases |data|
  {
    if data == [] then []
    else if |data| == 1 then EncodeGroup(data[0], 0, 0)[..2] + [PAD, PAD]
    else if |data| == 2 then EncodeGroup(data[0], data[1], 0)[..3] + [PAD]
    else EncodeGroup(data[0], data[1], data[2]) + Encode(data[3..])
  }

  lemma SymbolValue(v: Byte)
    requires v < 64
    ensures Value(Symbol(v)) == Ok(v) && Symbol(v) != PAD && !IsAsciiWhitespace(Symbol(v))
  {
  }

  /** Reading a number written as a high and a low part. */
  lemma HighLow(h: nat, l: nat)
    ensures l < 4 ==> (h * 4 + l) / 4 == h && (h * 4 + l) % 4 == l
    ensures l < 16 ==> (h * 16 + l) / 16 == h && (h * 16 + l) % 16 == l
    ensures l < 64 ==> (h * 64 + l) / 64 == h && (h * 64 + l) % 64 == l
  {
  }

  /** Packing the sextets of three bytes gives the bytes back. */
  lemma {:induction false} SextetsPack(x: Byte, y: Byte, z: Byte)
    ensures First(x / 4, x % 4 * 16 + y / 16) == x
    ensures Second(x % 4 * 16 + y / 16, y % 16 * 4 + z / 64) == y
    ensures Third(y % 16 * 4 + z / 64, z % 64) == z
  {
    HighLow(x % 4, y / 16);
    HighLow(y % 16, z / 64);
    KeepLowBits(x % 4, y / 16, 16);
    KeepLowBits(y % 16, z / 64, 64);
  }

  /** A left shift of a byte keeps only the low part of the shifted sextet. */
  lemma KeepLowBits(h: nat, l: nat, scale: nat)
    requires if scale == 16 then h < 4 && l < 16 else scale == 64 && h < 16 && l < 4
    ensures scale == 16 ==> (h * 16 + l) * 16 % 256 == l * 16
    ensures scale == 64 ==> (h * 4 + l) * 64 % 256 == l * 64
  {
    if scale == 16 {
      assert (h * 16 + l) * 16 == h * 256 + l * 16;
    } else {
      assert (h * 4 + l) * 64 == h * 256 + l * 64;
    }
  }

  /** Splitting packed bytes into sextets gives the sextets back. */
  lemma {:induction false} PackedSextets(a: Byte, b: Byte, c: Byte, d: Byte)
    requires a < 64 && b < 64 && c < 64 && d < 64
    ensures var x, y, z := First(a, b), Second(b, c), Third(c, d);
            x / 4 == a && x % 4 * 16 + y / 16 == b && y % 16 * 4 + z / 64 == c && z % 64 == d
  {
    KeepLowBits(b / 16, b % 16, 16);
    KeepLowBits(c / 4, c % 4, 64);
    assert b / 16 * 16 + b % 16 == b && c / 4 * 4 + c % 4 == c;
    HighLow(a, b / 16);
    HighLow(b % 16, c / 4);
    HighLow(c % 4, d);
  }

  lemma {:induction false} FullGroup(x: Byte, y: Byte, z: Byte)
    ensures var e := EncodeGroup(x, y, z); Quartet(e[0], e[1], e[2], e[3]) == Ok(([x, y, z], false))
  {
    hide Value, Symbol, First, Second, Third;
    SymbolValue(x / 4);
    SymbolValue(x % 4 * 16 + y / 16);
    SymbolValue(y % 16 * 4 + z / 64);
    SymbolValue(z % 64);
    SextetsPack(x, y, z);
  }

  lemma {:induction false} PaddedGroups(x: Byte, y: Byte)
    ensures var e := EncodeGroup(x, 0, 0); Quartet(e[0], e[1], PAD, PAD) == Ok(([x], true))
    ensures var e := EncodeGroup(x, y, 0); Quartet(e[0], e[1], e[2], PAD) == Ok(([x, y], true))
  {
    hide Value, Symbol, First, Second, Third;
    SymbolValue(x / 4);
    SymbolValue(x % 4 * 16);
    SymbolValue(x % 4 * 16 + y / 16);
    SymbolValue(y % 16 * 4);
    SextetsPack(x, 0, 0);
    SextetsPack(x, y, 0);
  }

  /* ---------- decoding undoes encoding ---------- */

  lemma {:induction false} DecodeUndoesEncode(data: seq<Byte>, output: seq<Byte>)
    requires output + data != [] && |output| + |data| <= MAX_IMAGE_BYTES
    ensures DecodeFrom(Encode(data), output, false) == Ok(output + data)
    decreases |data|
  {
    if data == [] {
      assert output + data == output;
    } else if |data| <= 2 {
      PaddedGroups(data[0], if |data| == 2 then data[1] else 0);
      var s := Encode(data);
      assert s[4..] == [];
      assert data == if |data| == 1 then [data[0]] else [data[0], data[1]];
    } else {
      FullGroup(data[0], data[1], data[2]);
      var s := Encode(data);
      assert s[4..] == Encode(data[3..]);
      var head := [data[0], data[1], data[2]];
      assert output + head + data[3..] == output + data;
      DecodeUndoesEncode(data[3..], output + head);
    }
  }

  /* ---------- what else the decoder accepts ---------- */

  /** The bits a padded last quartet leaves unused are zero. */
  ghost predicate UnusedBitsZero(s: seq<Byte>) {
    |s| >= 4 ==>
      if s[|s| - 2] == PAD then Value(s[|s| - 3]).Ok? ==> Value(s[|s| - 3]).value % 16 == 0
      else s[|s| - 1] == PAD ==> Value(s[|s| - 2]).Ok? ==> Value(s[|s| - 2]).value % 4 == 0
  }

  /** Re-encoding a decoded quartet gives it back, up to the unused bits. */
  lemma {:induction false} QuartetReencodes(s: seq<Byte>)
    requires |s| == 4 && Quartet(s[0], s[1], s[2], s[3]).Ok?
    ensures var q := Quartet(s[0], s[1], s[2], s[3]).value;
            |Encode(q.0)| == 4 && (Encode(q.0) == s <==> UnusedBitsZero(s)) && (!q.1 <==> |q.0| == 3)
  {
    if s[2] == PAD {
      OneByteQuartetReencodes(s);
    } else if s[3] == PAD {
      TwoByteQuartetReencodes(s);
    } else {
      FullQuartetReencodes(s);
    }
  }

  /** The short encodings, written out. */
  lemma {:induction false} EncodeShort(x: Byte, y: Byte, z: Byte)
    ensures Encode([x, y, z]) == EncodeGroup(x, y, z)
    ensures Encode([x, y]) == EncodeGroup(x, y, 0)[..3] + [PAD]
    ensures Encode([x]) == EncodeGroup(x, 0, 0)[..2] + [PAD, PAD]
  {
    assert [x, y, z][3..] == [];
    assert EncodeGroup(x, y, z) + Encode([]) == EncodeGroup(x, y, z);
  }

  lemma {:induction false} FullQuartetReencodes(s: seq<Byte>)
    requires |s| == 4 && s[2] != PAD && s[3] != PAD && Quartet(s[0], s[1], s[2], s[3]).Ok?
    ensures var q := Quartet(s[0], s[1], s[2], s[3]).value;
            |q.0| == 3 && !q.1 && Encode(q.0) == s
  {
    hide Value, Symbol, First, Second, Third;
    var a, b, c, d := Value(s[0]).value, Value(s[1]).value, Value(s[2]).value, Value(s[3]).value;
    EncodeShort(First(a, b), Second(b, c), Third(c, d));
    PackedSextets(a, b, c, d);
  }

  lemma {:induction false} TwoByteQuartetReencodes(s: seq<Byte>)
    requires |s| == 4 && s[2] != PAD && s[3] == PAD && Quartet(s[0], s[1], s[2], s[3]).Ok?
    ensures var q := Quartet(s[0], s[1], s[2], s[3]).value;
            |q.0| == 2 && q.1 && |Encode(q.0)| == 4 && (Encode(q.0) == s <==> Value(s[2]).value % 4 == 0)
  {
    hide Value, Symbol, First, Second, Third;
    var a, b, c := Value(s[0]).value, Value(s[1]).value, Value(s[2]).value;
    EncodeShort(First(a, b), Second(b, c), 0);
    PackedSextets(a, b, c, 0);
    var e := Encode([First(a, b), Second(b, c)]);
    assert e == [s[0], s[1], Symbol(c / 4 * 4), PAD];
    SymbolValue(c / 4 * 4);
  }

  lemma {:induction false} OneByteQuartetReencodes(s: seq<Byte>)
    requires |s| == 4 && s[2] == PAD && s[3] == PAD && Quartet(s[0], s[1], s[2], s[3]).Ok?
    ensures var q := Quartet(s[0], s[1], s[2], s[3]).value;
            |q.0| == 1 && q.1 && |Encode(q.0)| == 4 && (Encode(q.0) == s <==> Value(s[1]).value % 16 == 0)
  {
    hide Value, Symbol, First, Second, Third;
    var a, b := Value(s[0]).value, Value(s[1]).value;
    EncodeShort(First(a, b), 0, 0);
    PackedSextets(a, b, 0, 0);
    var e := Encode([First(a, b)]);
    assert e == [s[0], Symbol(b / 16 * 16), PAD, PAD];
    SymbolValue(b / 16 * 16);
  }

  /** Accepted text is the encoding of the decoded bytes exactly when its unused bits
      are zero; with other unused bits it still has the length of that encoding. */
  lemma {:induction false} AcceptedIsAlmostCanonical(s: seq<Byte>, output: seq<Byte>) returns (data: seq<Byte>)
    requires DecodeFrom(s, output, false).Ok?
    ensures DecodeFrom(s, output, false) == Ok(output + data)
    ensures |s| == |Encode(data)| && (s == Encode(data) <==> UnusedBitsZero(s))
    decreases |s|
  {
    hide Value, Symbol;
    if s == [] {
      data := [];
      assert output + data == output;
    } else {
      var q := Quartet(s[0], s[1], s[2], s[3]).value;
      QuartetReencodes(s[..4]);
      assert s == s[..4] + s[4..];
      if q.1 {
        data := q.0;
        assert s[4..] == [] && s == s[..4];
      } else {
        var rest := AcceptedIsAlmostCanonical(s[4..], output + q.0);
        data := q.0 + rest;
        assert output + q.0 + rest == output + data;
        FullQuartetPrefix(s, q.0, rest);
      }
    }
  }

  lemma {:induction false} FullQuartetPrefix(s: seq<Byte>, group: seq<Byte>, rest: seq<Byte>)
    requires |s| >= 4 && |group| == 3 && s[2] != PAD && s[3] != PAD && Encode(group) == s[..4]
    requires |Encode(rest)| == |s[4..]| && (s[4..] == Encode(rest) <==> UnusedBitsZero(s[4..]))
    ensures |Encode(group + rest)| == |s| && (s == Encode(group + rest) <==> UnusedBitsZero(s))
  {
    EncodeFirstGroup(group, rest);
    assert s == s[..4] + s[4..];
    assert s == Encode(group + rest) <==> s[4..] == Encode(rest) by {
      if s == Encode(group + rest) { assert Encode(group + rest)[4..] == Encode(rest); }
    }
    if rest != [] {
      EncodeIsQuartets(rest);
      LastQuartetDecides(s);
    }
  }

  lemma LastQuartetDecides(s: seq<Byte>)
    requires |s| >= 8
    ensures UnusedBitsZero(s) == UnusedBitsZero(s[4..])
  {
    var t := s[4..];
    assert t[|t| - 1] == s[|s| - 1] && t[|t| - 2] == s[|s| - 2] && t[|t| - 3] == s[|s| - 3];
  }

  lemma {:induction false} EncodeFirstGroup(group: seq<Byte>, rest: seq<Byte>)
    requires |group| == 3
    ensures Encode(group + rest) == Encode(group) + Encode(rest) && |Encode(group)| == 4
  {
    var g := group + rest;
    assert g[3..] == rest && group[3..] == [];
  }

  lemma {:induction false} EncodeIsQuartets(data: seq<Byte>)
    requires data != []
    ensures |Encode(data)| >= 4
  {
  }

  /* ---------- the decoder ---------- */

  /** Decoding in one pass with a four-byte buffer. Any ASCII whitespace may stand
      anywhere in the input; the result is exactly the encoded data, and anything the
      decoder accepts is canonical up to the unused bits of a padded last quartet. */
  method Decode(input: seq<Byte>) returns (r: Result<seq<Byte>, Error>)
    ensures forall data :: 0 < |data| <= MAX_IMAGE_BYTES && Strip(input) == Encode(data) ==> r == Ok(data)
    ensures r.Ok? ==>
              && 0 < |r.value| <= MAX_IMAGE_BYTES
              && |Strip(input)| == |Encode(r.value)|
              && (Strip(input) == Encode(r.value) <==> UnusedBitsZero(Strip(input)))
    ensures r == DecodeFrom(Strip(input), [], false)
  {
    r := Run(input);
    forall data | 0 < |data| <= MAX_IMAGE_BYTES && Strip(input) == Encode(data)
      ensures r == Ok(data)
    {
      DecodeUndoesEncode(data, []);
      assert [] + data == data;
    }
    if r.Ok? {
      var data := AcceptedIsAlmostCanonical(Strip(input), []);
      assert [] + data == data;
      DecodedSize(Strip(input), [], false);
    }
  }

  lemma {:induction false} DecodedSize(s: seq<Byte>, output: seq<Byte>, finished: bool)
    requires DecodeFrom(s, output, finished).Ok? && |output| <= MAX_IMAGE_BYTES
    ensures 0 < |DecodeFrom(s, output, finished).value| <= MAX_IMAGE_BYTES
    decreases |s|
  {
    if s != [] {
      var q := Quartet(s[0], s[1], s[2], s[3]).value;
      DecodedSize(s[4..], output + q.0, q.1);
    }
  }

  /** The loop of the decoder: `quartet` holds the `used` bytes of the group being read. */
  method Run(input: seq<Byte>) returns (r: Result<seq<Byte>, Error>)
    ensures r == DecodeFrom(Strip(input), [], false)
  {
    var output: seq<Byte> := [];
    var quartet := new Byte[4];
    var used := 0;
    var finished := false;
    assert quartet[..0] + Strip(input[0..]) == Strip(input) by { assert input[0..] == input; }
    for i := 0 to |input|
      invariant 0 <= used < 4 && (finished ==> used == 0)
      invariant DecodeFrom(quartet[..used] + Strip(input[i..]), output, finished) == DecodeFrom(Strip(input), [], false)
    {
      var byte := input[i];
      ghost var rest := Strip(input[i + 1..]);
      assert input[i..][1..] == input[i + 1..];
      if IsAsciiWhitespace(byte) {
        continue;
      }
      assert Strip(input[i..]) == [byte] + rest;
      if finished {
        return Err(InvalidSuffix);
      }
      ghost var before := quartet[..used] + Strip(input[i..]);
      quartet[used] := byte;
      used := used + 1;
      assert quartet[..used] + rest == before;
      if used == 4 {
        var q := Quartet(quartet[0], quartet[1], quartet[2], quartet[3]);
        assert before[4..] == rest && before[..4] == quartet[..4];
        assert before[0] == quartet[0] && before[1] == quartet[1] && before[2] == quartet[2] && before[3] == quartet[3];
        if q.Err? {
          return Err(q.error);
        }
        output := output + q.value.0;
        finished := q.value.1;
        if |output| > MAX_IMAGE_BYTES {
          return Err(TooLarge);
        }
        used := 0;
        assert quartet[..0] + rest == rest;
      }
    }
    assert input[|input|..] == [];
    assert quartet[..used] + Strip([]) == quartet[..used];
    if used != 0 || output == [] {
      return Err(Incomplete);
    }
    return Ok(output);
  }
}
