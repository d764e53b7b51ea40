/** Bounding a text for the screen (src/fullscreen.rs): control characters are replaced, and a text
    that is too long is cut between characters, then shortened by whole graphemes until an ellipsis
    fits. How a text falls into graphemes is a parameter.
 */
module PlainText {
  import opened TextBasics

  const ELLIPSIS: char := '\U{2026}'
  const REPLACEMENT: char := '\U{FFFD}'

  predicate IsControl(c: char) { c < ' ' || '\U{7F}' <= c < '\U{A0}' }

  function Shown(c: char): char {
    if c == '\t' || c == '\r' || c == '\n' then ' ' else if IsControl(c) then REPLACEMENT else c
  }

  function Sanitized(s: string): string {
    seq(|s|, i requires 0 <= i < |s| => Shown(s[i]))
  }

  /** Tabs and line breaks turn into spaces, any other control code into one replacement character. */
  lemma ControlsAreReplaced(s: string)
    ensures |Sanitized(s)| == |s|
    ensures forall i :: 0 <= i < |s| ==>
              var code := s[i] as int;
              Sanitized(s)[i] == if code in {9, 10, 13} then ' '
                                 else if code > 31 && !(127 <= code <= 159) then s[i] else '\U{FFFD}'
  {
  }

  /** The number of characters kept when the first `n` are. */
  function Kept(s: string, n: nat, limit: nat): (m: nat)
    requires n <= |s|
    ensures n <= m <= |s|
    decreases |s| - n
  {
    if n < |s| && ByteLen(s[..n + 1]) <= limit then Kept(s, n + 1, limit) else n
  }

  /** Whole graphemes are dropped at the end until an ellipsis fits. */
  function Shortened(s: string, limit: nat, lastGrapheme: string -> nat): string
    requires forall x: string :: x != "" ==> lastGrapheme(x) < |x|
    decreases |s|
  {
    if ByteLen(s) + 3 <= limit || s == "" then s else Shortened(s[..lastGrapheme(s)], limit, lastGrapheme)
  }

  function Bounded(value: string, limit: nat, lastGrapheme: string -> nat): string
    requires forall x: string :: x != "" ==> lastGrapheme(x) < |x|
  {
    var kept := Sanitized(value)[..Kept(Sanitized(value), 0, limit)];
    if ByteLen(kept) < ByteLen(value) && limit >= 3 then Shortened(kept, limit, lastGrapheme) + [ELLIPSIS] else kept
  }

  /** No control code is ever shown. */
  lemma ShownIsPrintable(value: string, limit: nat, lastGrapheme: string -> nat, c: char)
    requires forall x: string :: x != "" ==> lastGrapheme(x) < |x|
    requires c in Bounded(value, limit, lastGrapheme)
    ensures c as int > 31 && !(127 <= c as int <= 159)
  {
    hide ByteLen;
    ControlsAreReplaced(value);
    assert forall d :: d in Sanitized(value) ==> d as int > 31 && !(127 <= d as int <= 159);
    ShortenedIsPrefix(Sanitized(value)[..Kept(Sanitized(value), 0, limit)], limit, lastGrapheme);
  }

  lemma {:induction false} ShortenedIsPrefix(s: string, limit: nat, lastGrapheme: string -> nat)
    requires forall x: string :: x != "" ==> lastGrapheme(x) < |x|
    ensures Shortened(s, limit, lastGrapheme) <= s
    decreases |s|
  {
    hide ByteLen;
    if Shortened(s, limit, lastGrapheme) != s { ShortenedIsPrefix(s[..lastGrapheme(s)], limit, lastGrapheme); }
  }

  lemma {:induction false} ByteLenConcat(a: string, b: string)
    ensures ByteLen(a + b) == ByteLen(a) + ByteLen(b)
  {
    if a == "" {
      assert a + b == b;
    } else {
      assert (a + b)[1..] == a[1..] + b;
      ByteLenConcat(a[1..], b);
    }
  }

  lemma EmptyByteLen()
    ensures ByteLen("") == 0
  {
  }

  lemma {:induction false} ByteLenOne(c: char)
    ensures ByteLen([c]) == CharBytes(c)
  {
    assert [c][1..] == "";
  }

  /** The loops of the program. */
  method BoundedPlainText(value: string, limit: nat, lastGrapheme: string -> nat) returns (sanitized: string)
    requires forall x: string :: x != "" ==> lastGrapheme(x) < |x|
    ensures sanitized == Bounded(value, limit, lastGrapheme)
  {
    hide ByteLen, CharBytes;
    sanitized := "";
    ghost var all := Sanitized(value);
    EmptyByteLen();
    for i := 0 to |value|
      invariant sanitized == all[..i] && Kept(all, i, limit) == Kept(all, 0, limit)
    {
      var replacement := Shown(value[i]);
      ByteLenConcat(sanitized, [replacement]);
      ByteLenOne(replacement);
      assert all[..i + 1] == sanitized + [replacement];
      if ByteLen(sanitized) + CharBytes(replacement) > limit {
        break;
      }
      sanitized := sanitized + [replacement];
    }
    assert sanitized == all[..Kept(all, 0, limit)];
    if ByteLen(sanitized) < ByteLen(value) && limit >= 3 {
      ghost var kept := sanitized;
      while ByteLen(sanitized) + 3 > limit && sanitized != ""
        invariant Shortened(sanitized, limit, lastGrapheme) == Shortened(kept, limit, lastGrapheme)
        decreases |sanitized|
      {
        sanitized := sanitized[..lastGrapheme(sanitized)];
      }
      sanitized := sanitized + [ELLIPSIS];
    }
  }

  /** What is kept is the longest prefix within the limit. */
  lemma {:induction false} KeptIsLongest(s: string, n: nat, limit: nat, k: nat)
    requires n <= |s| && k <= |s| && ByteLen(s[..n]) <= limit
    ensures ByteLen(s[..k]) <= limit <==> k <= Kept(s, n, limit)
    decreases |s| - n
  {
    hide ByteLen;
    if n < |s| && ByteLen(s[..n + 1]) <= limit {
      KeptIsLongest(s, n + 1, limit, k);
    } else if k <= n {
      PrefixIsShorter(s, k, n);
    } else {
      PrefixIsShorter(s, n + 1, k);
    }
  }

  lemma {:induction false} PrefixIsShorter(s: string, a: nat, b: nat)
    requires a <= b <= |s|
    ensures ByteLen(s[..a]) <= ByteLen(s[..b])
  {
    ByteLenConcat(s[..a], s[a..b]);
    assert s[..a] + s[a..b] == s[..b];
  }

  /** Replacing control characters never makes a text shorter. */
  lemma {:induction false} SanitizedIsNoShorter(s: string)
    ensures ByteLen(s) <= ByteLen(Sanitized(s))
  {
    if s != "" {
      SanitizedIsNoShorter(s[1..]);
      assert Sanitized(s)[1..] == Sanitized(s[1..]);
    }
  }

  lemma {:induction false} ShortenedFits(s: string, limit: nat, lastGrapheme: string -> nat)
    requires forall x: string :: x != "" ==> lastGrapheme(x) < |x|
    requires limit >= 3
    ensures ByteLen(Shortened(s, limit, lastGrapheme)) + 3 <= limit
    ensures Shortened(s, limit, lastGrapheme) <= s
    decreases |s|
  {
    if !(ByteLen(s) + 3 <= limit || s == "") { ShortenedFits(s[..lastGrapheme(s)], limit, lastGrapheme); }
  }

  /** The result is within the limit, and is a prefix of the text with its control characters
      replaced, closed by an ellipsis or not. It is all of the text exactly if that fits. */
  lemma {:induction false} BoundedFits(value: string, limit: nat, lastGrapheme: string -> nat)
    requires forall x: string :: x != "" ==> lastGrapheme(x) < |x|
    ensures ByteLen(Bounded(value, limit, lastGrapheme)) <= limit
    ensures exists n :: 0 <= n <= |value| && (Bounded(value, limit, lastGrapheme) == Sanitized(value)[..n]
                                              || Bounded(value, limit, lastGrapheme) == Sanitized(value)[..n] + [ELLIPSIS])
    ensures ByteLen(Sanitized(value)) <= limit ==> Bounded(value, limit, lastGrapheme) == Sanitized(value)
  {
    hide ByteLen;
    var all := Sanitized(value);
    var n := Kept(all, 0, limit);
    EmptyByteLen();
    KeptIsLongest(all, 0, limit, n);
    KeptIsLongest(all, 0, limit, |all|);
    assert all[..|all|] == all;
    SanitizedIsNoShorter(value);
    if ByteLen(all[..n]) < ByteLen(value) && limit >= 3 {
      ShortenedFits(all[..n], limit, lastGrapheme);
      var short := Shortened(all[..n], limit, lastGrapheme);
      ByteLenConcat(short, [ELLIPSIS]);
      ByteLenOne(ELLIPSIS);
      assert short == all[..|short|];
    }
  }

  /** A text that is cut ends in an ellipsis exactly if one fits and what is kept takes fewer bytes
      than the whole text did before its control characters were replaced, or if what is kept
      happens to end in one. */
  lemma {:induction false} CutShowsExactly(value: string, limit: nat, lastGrapheme: string -> nat)
    requires forall x: string :: x != "" ==> lastGrapheme(x) < |x|
    requires ByteLen(Sanitized(value)) > limit
    ensures var kept, shown := Sanitized(value)[..Kept(Sanitized(value), 0, limit)], Bounded(value, limit, lastGrapheme);
            && kept < Sanitized(value)
            && (shown != "" && shown[|shown| - 1] == '\U{2026}' <==>
                || (limit >= 3 && ByteLen(kept) < ByteLen(value))
                || (kept != "" && kept[|kept| - 1] == '\U{2026}'))
  {
    hide ByteLen;
    var all := Sanitized(value);
    var kept := all[..Kept(all, 0, limit)];
    EmptyByteLen();
    KeptIsLongest(all, 0, limit, |all|);
    assert all[..|all|] == all;
  }

  /** Two control characters bounded to five bytes: one is dropped and nothing shows it. */
  lemma CutWithoutEllipsis(lastGrapheme: string -> nat)
    requires forall x: string :: x != "" ==> lastGrapheme(x) < |x|
    ensures Bounded("\U{01}\U{01}", 5, lastGrapheme) == [REPLACEMENT]
  {
    var all := Sanitized("\U{01}\U{01}");
    assert all == [REPLACEMENT, REPLACEMENT];
    assert all[..1] == [REPLACEMENT] && all[..2] == [REPLACEMENT] + [REPLACEMENT];
    ByteLenOne(REPLACEMENT);
    ByteLenConcat([REPLACEMENT], [REPLACEMENT]);
    assert Kept(all, 1, 5) == 1;
    assert Kept(all, 0, 5) == 1;
    assert ByteLen("\U{01}\U{01}") == 2 by { AsciiByteLen("\U{01}\U{01}"); }
  }
}
