/** The reader of JSON strings against RFC 8259, section 7: it reads exactly the texts that spell
    a value character by character, in any of the spellings a character has there.
 */
module JsonSpelling {
  import opened Wrappers
  import opened TextBasics

  /** A hexadecimal digit, in either case. */
  ghost predicate IsHex(c: char, v: nat) {
    v < 16 && (c == "0123456789abcdef"[v] || c == "0123456789ABCDEF"[v])
  }

  ghost predicate IsHex4(t: string, n: nat) {
    |t| == 4 && IsHex(t[0], n / 4096) && IsHex(t[1], n / 256 % 16) && IsHex(t[2], n / 16 % 16) && IsHex(t[3], n % 16)
  }

  ghost predicate SpelledShort(t: string, c: char) {
    || (t == "\\\"" && c as int == 34) || (t == "\\\\" && c as int == 92) || (t == "\\/" && c as int == 47)
    || (t == "\\b" && c as int == 8) || (t == "\\f" && c as int == 12) || (t == "\\n" && c as int == 10)
    || (t == "\\r" && c as int == 13) || (t == "\\t" && c as int == 9)
  }

  ghost predicate SpelledByCode(t: string, c: char) {
    |t| == 6 && t[..2] == "\\u" && IsHex4(t[2..], c as int)
  }

  /** Two surrogates for a character beyond the first plane. */
  ghost predicate SpelledByPair(t: string, c: char) {
    && |t| == 12 && t[..2] == "\\u" && t[6..8] == "\\u" && c as int >= 0x10000
    && IsHex4(t[2..6], 0xD800 + (c as int - 0x10000) / 0x400) && IsHex4(t[8..], 0xDC00 + (c as int - 0x10000) % 0x400)
  }

  /** `t` stands for the character `c` inside a JSON string. */
  ghost predicate Spells(t: string, c: char) {
    || (t == [c] && c as int >= 32 && c != '\"' && c != '\\')
    || SpelledShort(t, c) || SpelledByCode(t, c) || SpelledByPair(t, c)
  }

  ghost predicate SpellsAll(ts: seq<string>, value: string) {
    |ts| == |value| && forall i :: 0 <= i < |ts| ==> Spells(ts[i], value[i])
  }

  ghost function Flat(ts: seq<string>): string {
    if ts == [] then "" else ts[0] + Flat(ts[1..])
  }

  /* ---------- hexadecimal digits ---------- */

  lemma Hex4Is(t: string, n: nat)
    requires |t| >= 4
    ensures Hex4(t) == Some(n) <==> IsHex4(t[..4], n)
  {
    hide HexValue, IsHex;
    if Hex4(t) == Some(n) {
      var a, b, c, d := HexValue(t[0]).value, HexValue(t[1]).value, HexValue(t[2]).value, HexValue(t[3]).value;
      HexIs(t[0], a);
      HexIs(t[1], b);
      HexIs(t[2], c);
      HexIs(t[3], d);
      Digits(a, b, c, d, n);
    }
    if IsHex4(t[..4], n) {
      HexIs(t[0], n / 4096);
      HexIs(t[1], n / 256 % 16);
      HexIs(t[2], n / 16 % 16);
      HexIs(t[3], n % 16);
      DigitsAddUp(n);
    }
  }

  lemma HexIs(c: char, v: nat)
    ensures HexValue(c) == Some(v) <==> IsHex(c, v)
    ensures HexValue(c) == Some(v) ==> v < 16
  {
    HexIsReadInEitherCase(c, v);
  }

  lemma Digits(a: nat, b: nat, c: nat, d: nat, n: nat)
    requires a < 16 && b < 16 && c < 16 && d < 16 && n == a * 4096 + b * 256 + c * 16 + d
    ensures n / 4096 == a && n / 256 % 16 == b && n / 16 % 16 == c && n % 16 == d
  {
    assert n / 256 == a * 16 + b;
    assert n / 16 == a * 256 + b * 16 + c;
  }

  lemma DigitsAddUp(n: nat)
    ensures n == n / 4096 * 4096 + n / 256 % 16 * 256 + n / 16 % 16 * 16 + n % 16
  {
    assert n / 256 == n / 256 / 16 * 16 + n / 256 % 16 && n / 256 / 16 == n / 4096;
    assert n / 16 == n / 256 * 16 + n / 16 % 16;
  }

  /* ---------- one character ---------- */

  lemma SpelledCharIsRead(t: string, c: char, s: string)
    requires Spells(t, c)
    ensures ParseString(t + s) == Prepend(c, ParseString(s))
  {
    hide Prepend, Hex4, IsHex4;
    var all := t + s;
    if SpelledByPair(t, c) {
      PairIsRead(t, c, s);
    } else if SpelledByCode(t, c) {
      assert all[0] == t[..2][0] && all[1] == t[..2][1];
      assert all[2..][..4] == t[2..] && all[6..] == s;
      Hex4Is(all[2..], c as int);
      assert SimpleEscape('u').None?;
    } else if |t| == 2 {
      assert all[2..] == s;
    } else {
      assert all[1..] == s;
    }
  }

  lemma PairIsRead(t: string, c: char, s: string)
    requires SpelledByPair(t, c)
    ensures ParseString(t + s) == Prepend(c, ParseString(s))
  {
    hide Prepend, Hex4, IsHex4;
    var all, over := t + s, c as int - 0x10000;
    assert all[0] == t[..2][0] && all[1] == t[..2][1] && all[6] == t[6..8][0] && all[7] == t[6..8][1];
    assert all[2..][..4] == t[2..6] && all[8..][..4] == t[8..] && all[12..] == s;
    Hex4Is(all[2..], 0xD800 + over / 0x400);
    Hex4Is(all[8..], 0xDC00 + over % 0x400);
    assert over / 0x400 * 0x400 + over % 0x400 == over;
    assert SimpleEscape('u').None?;
  }

  /** What is read first is one spelling of the first character. */
  lemma FirstSpelling(s: string) returns (t: string)
    requires ParseString(s).Some? && s[0] != '\"'
    ensures var r := ParseString(s).value;
            && t <= s && ParseString(s[|t|..]).Some? && r.0 != "" && Spells(t, r.0[0])
            && ParseString(s[|t|..]).value == (r.0[1..], r.1)
  {
    hide Hex4, IsHex4;
    if s[0] != '\\' {
      t := s[..1];
    } else if SimpleEscape(s[1]).Some? {
      t := s[..2];
      assert t == ['\\', s[1]];
    } else {
      var v := Hex4(s[2..]).value;
      Hex4Is(s[2..], v);
      if v < 0xD800 || 0xE000 <= v {
        t := s[..6];
        assert t[2..] == s[2..][..4];
      } else {
        t := s[..12];
        var w := Hex4(s[8..]).value;
        Hex4Is(s[8..], w);
        assert t[2..6] == s[2..][..4] && t[8..] == s[8..][..4];
        var over := (v - 0xD800) * 0x400 + (w - 0xDC00);
        assert over / 0x400 == v - 0xD800 && over % 0x400 == w - 0xDC00;
      }
    }
  }

  /* ---------- whole strings ---------- */

  lemma {:induction false} SpelledIsRead(ts: seq<string>, value: string, rest: string)
    requires SpellsAll(ts, value)
    ensures ParseString(Flat(ts) + "\"" + rest) == Some((value, rest))
  {
    hide Spells;
    if ts == [] {
      assert (Flat(ts) + "\"" + rest)[1..] == rest;
    } else {
      var tail := Flat(ts[1..]) + "\"" + rest;
      SpelledIsRead(ts[1..], value[1..], rest);
      assert Flat(ts) + "\"" + rest == ts[0] + tail;
      SpelledCharIsRead(ts[0], value[0], tail);
      assert [value[0]] + value[1..] == value;
    }
  }

  lemma {:induction false} ReadIsSpelled(s: string, value: string, rest: string) returns (ts: seq<string>)
    requires ParseString(s) == Some((value, rest))
    ensures SpellsAll(ts, value) && s == Flat(ts) + "\"" + rest
    decreases |value|
  {
    QuoteEnds(s);
    hide Spells, ParseString, SpellsAll, Flat;
    if s[0] == '\"' {
      ts := [];
      NothingIsSpelled();
      assert s == "\"" + s[1..];
    } else {
      var t := FirstSpelling(s);
      var more := ReadIsSpelled(s[|t|..], value[1..], rest);
      ts := [t] + more;
      SpelledOneMore(t, value[0], more, value[1..]);
      assert value == [value[0]] + value[1..];
      Joined(s, t, Flat(more), rest);
    }
  }

  lemma Joined(s: string, t: string, body: string, rest: string)
    requires t <= s && s[|t|..] == body + "\"" + rest
    ensures s == t + body + "\"" + rest
  {
    assert s == t + s[|t|..];
    assert t + (body + "\"" + rest) == t + body + "\"" + rest;
  }

  lemma SpelledOneMore(t: string, c: char, ts: seq<string>, value: string)
    requires Spells(t, c) && SpellsAll(ts, value)
    ensures SpellsAll([t] + ts, [c] + value) && Flat([t] + ts) == t + Flat(ts)
  {
    hide Spells;
    assert ([t] + ts)[1..] == ts;
  }

  lemma NothingIsSpelled()
    ensures SpellsAll([], "") && Flat([]) == ""
  {
  }

  lemma QuoteEnds(s: string)
    requires ParseString(s).Some?
    ensures s != "" && (s[0] == '\"' ==> ParseString(s) == Some(("", s[1..])))
  {
  }

  /** A text is read as a value and a rest exactly if it spells the value, up to a quote. */
  lemma StringsReadExactly(s: string, value: string, rest: string)
    ensures ParseString(s) == Some((value, rest)) <==>
            exists ts :: SpellsAll(ts, value) && s == Flat(ts) + "\"" + rest
  {
    hide ParseString, SpellsAll;
    if ParseString(s) == Some((value, rest)) {
      var ts := ReadIsSpelled(s, value, rest);
    }
    forall ts | SpellsAll(ts, value) && s == Flat(ts) + "\"" + rest ensures ParseString(s) == Some((value, rest)) {
      SpelledIsRead(ts, value, rest);
    }
  }

  /** The printer uses a spelling that is as short as any. */
  lemma EscapeIsShortest(c: char, t: string)
    requires Spells(t, c)
    ensures Spells(EscapeChar(c), c) && |EscapeChar(c)| <= |t|
  {
    hide HexValue, IsHex4;
    if |EscapeChar(c)| == 6 {
      var e := EscapeChar(c);
      assert e == ['\\', 'u', '0', '0', HexDigit(c as int / 16), HexDigit(c as int % 16)];
      assert e[..2] == "\\u" && e[2..] == ['0', '0', HexDigit(c as int / 16), HexDigit(c as int % 16)];
      ControlIsHex4(c, e[2..]);
    }
  }

  lemma ControlIsHex4(c: char, t: string)
    requires c < ' ' && t == ['0', '0', HexDigit(c as int / 16), HexDigit(c as int % 16)]
    ensures IsHex4(t, c as int)
  {
    assert c as int / 16 % 16 == c as int / 16;
  }
}
