/** Model of the palette's `edit_distance` (src/command_palette.rs).

    The reference notion is independent of the dynamic programme: an edit
    script is a list of single-character edits applied one after another at
    explicit positions, and the distance between two strings is the length of
    a shortest script turning one into the other.
 */
module EditDistance {
  import opened Wrappers

  /** One single-character edit of a whole string. */
  datatype Edit =
    | Insert(at: nat, c: char)
    | Delete(at: nat)
    | Substitute(at: nat, c: char)

  /** An edit is applicable when its position exists in the string. */
  predicate Applicable(s: string, e: Edit) {
    match e
    case Insert(at, _) => at <= |s|
    case Delete(at) => at < |s|
    case Substitute(at, _) => at < |s|
  }

  function Apply(s: string, e: Edit): string
    requires Applicable(s, e)
  {
    match e
    case Insert(at, c) => s[..at] + [c] + s[at..]
    case Delete(at) => s[..at] + s[at + 1..]
    case Substitute(at, c) => s[..at] + [c] + s[at + 1..]
  }

  /** `script` rewrites `a` into `b`, one edit after another. */
  ghost predicate Transforms(a: string, script: seq<Edit>, b: string)
    decreases |script|
  {
    if script == [] then a == b
    else Applicable(a, script[0]) && Transforms(Apply(a, script[0]), script[1..], b)
  }

  function Differ(x: char, y: char): nat { if x == y then 0 else 1 }

  /** The recurrence behind the two row buffers: the table entry for two prefixes. */
  function Cell(a: string, b: string): nat
    decreases |a| + |b|
  {
    if |a| == 0 then |b|
    else if |b| == 0 then |a|
    else
      Min(Min(Cell(a, Front(b)) + 1, Cell(Front(a), b) + 1),
          Cell(Front(a), Front(b)) + Differ(Last(a), Last(b)))
  }

  function Front(s: string): string
    requires s != ""
  {
    s[..|s| - 1]
  }

  function Last(s: string): char
    requires s != ""
  {
    s[|s| - 1]
  }

  /* ---------- the table entry is at least every length difference ---------- */

  lemma {:induction false} CellLengthBounds(a: string, b: string)
    ensures |a| <= Cell(a, b) + |b| && |b| <= Cell(a, b) + |a|
    ensures Cell(a, b) <= |a| + |b|
    decreases |a| + |b|
  {
    if |a| > 0 && |b| > 0 {
      CellLengthBounds(a, Front(b));
      CellLengthBounds(Front(a), b);
      CellLengthBounds(Front(a), Front(b));
    }
  }

  lemma CellOfEmpty(a: string, b: string)
    ensures a == "" || b == "" ==> Cell(a, b) == |a| + |b|
  {
  }

  lemma CellUnfolds(a: string, b: string)
    requires a != "" && b != ""
    ensures Cell(a, b) == Min(Min(Cell(a, Front(b)) + 1, Cell(Front(a), b) + 1),
                              Cell(Front(a), Front(b)) + Differ(Last(a), Last(b)))
  {
    hide Min, Front, Last, Differ;
  }

  /** One step of the recurrence, whatever is empty. */
  lemma {:induction false} CellStep(a: string, b: string)
    ensures a != "" ==> Cell(a, b) <= Cell(Front(a), b) + 1
    ensures b != "" ==> Cell(a, b) <= Cell(a, Front(b)) + 1
    ensures a != "" && b != "" ==> Cell(a, b) <= Cell(Front(a), Front(b)) + Differ(Last(a), Last(b))
  {
    if a != "" { CellLengthBounds(Front(a), b); }
    if b != "" { CellLengthBounds(a, Front(b)); }
  }

  lemma {:induction false} CellTriangle(a: string, b: string, c: string)
    ensures Cell(a, c) <= Cell(a, b) + Cell(b, c)
    decreases |a| + |b| + |c|
  {
    hide Cell;
    CellLengthBounds(a, c);
    CellLengthBounds(a, b);
    CellLengthBounds(b, c);
    CellOfEmpty(a, b);
    CellOfEmpty(b, c);
    CellOfEmpty(a, c);
    if a != "" && b != "" && c != "" {
      CellUnfolds(a, b);
      CellUnfolds(b, c);
      CellStep(a, c);
      if Cell(a, b) == Cell(Front(a), b) + 1 {
        CellTriangle(Front(a), b, c);
      } else if Cell(b, c) == Cell(b, Front(c)) + 1 {
        CellTriangle(a, b, Front(c));
      } else {
        CellTriangle(a, Front(b), Front(c));
        CellTriangle(Front(a), Front(b), c);
        CellTriangle(Front(a), Front(b), Front(c));
        if Cell(a, b) == Cell(a, Front(b)) + 1 {
          CellTriangle(a, Front(b), c);
        }
      }
    }
  }

  lemma {:induction false} CellSame(a: string)
    ensures Cell(a, a) == 0
  {
    if a != "" { CellSame(Front(a)); }
  }

  /* ---------- lower bound: no script is shorter than the entry ---------- */

  /** Equal suffixes never increase the entry. */
  lemma {:induction false} CellCommonSuffix(a: string, b: string, suffix: string)
    ensures Cell(a + suffix, b + suffix) <= Cell(a, b)
    decreases |suffix|
  {
    hide Cell;
    if suffix == "" {
      assert a + suffix == a && b + suffix == b;
    } else {
      var f := Front(suffix);
      CellCommonSuffix(a, b, f);
      assert Front(a + suffix) == a + f && Front(b + suffix) == b + f;
      CellStep(a + suffix, b + suffix);
    }
  }

  /** Swapping at most one character for at most one, in front of a common tail. */
  lemma {:induction false} SpliceCostsAtMostOne(p: string, x: string, y: string, tail: string)
    requires |x| <= 1 && |y| <= 1
    ensures Cell(p + x + tail, p + y + tail) <= 1
  {
    hide Cell;
    CellSame(p);
    ShortEndsCostAtMostOne(p, x, y);
    CellCommonSuffix(p + x, p + y, tail);
  }

  lemma {:induction false} ShortEndsCostAtMostOne(p: string, x: string, y: string)
    requires |x| <= 1 && |y| <= 1 && Cell(p, p) == 0
    ensures Cell(p + x, p + y) <= 1
  {
    hide Cell;
    CellStep(p + x, p + y);
    if x == "" {
      assert p + x == p;
    } else {
      assert Front(p + x) == p;
    }
    if y == "" {
      assert p + y == p;
    } else {
      assert Front(p + y) == p;
    }
  }

  lemma {:induction false} OneEditCostsAtMostOne(s: string, e: Edit)
    requires Applicable(s, e)
    ensures Cell(s, Apply(s, e)) <= 1
  {
    hide Cell;
    var p := s[..e.at];
    var x := if e.Insert? then "" else [s[e.at]];
    var y := if e.Delete? then "" else [e.c];
    var tail := s[e.at + |x|..];
    SpliceCostsAtMostOne(p, x, y, tail);
    assert p + x + tail == s;
    assert p + y + tail == Apply(s, e);
  }

  lemma {:induction false} NoScriptIsShorter(a: string, script: seq<Edit>, b: string)
    requires Transforms(a, script, b)
    ensures Cell(a, b) <= |script|
    decreases |script|
  {
    hide Cell, Apply;
    if script == [] {
      CellSame(a);
    } else {
      var next := Apply(a, script[0]);
      NoScriptIsShorter(next, script[1..], b);
      OneEditCostsAtMostOne(a, script[0]);
      CellTriangle(a, next, b);
    }
  }

  /* ---------- upper bound: a script of that length exists ---------- */

  lemma {:induction false} TransformsChain(a: string, s1: seq<Edit>, b: string, s2: seq<Edit>, c: string)
    requires Transforms(a, s1, b) && Transforms(b, s2, c)
    ensures Transforms(a, s1 + s2, c)
    decreases |s1|
  {
    hide Apply;
    if s1 == [] {
      assert s1 + s2 == s2;
    } else {
      TransformsChain(Apply(a, s1[0]), s1[1..], b, s2, c);
      assert (s1 + s2)[1..] == s1[1..] + s2;
    }
  }

  /** A script keeps working, edit for edit, under a longer tail. */
  lemma {:induction false} TransformsWithTail(a: string, script: seq<Edit>, b: string, tail: string)
    requires Transforms(a, script, b)
    ensures Transforms(a + tail, script, b + tail)
    decreases |script|
  {
    hide Apply;
    if script != [] {
      var e := script[0];
      ApplyWithTail(a, e, tail);
      TransformsWithTail(Apply(a, e), script[1..], b, tail);
    }
  }

  lemma {:induction false} ApplyWithTail(a: string, e: Edit, tail: string)
    requires Applicable(a, e)
    ensures Applicable(a + tail, e) && Apply(a + tail, e) == Apply(a, e) + tail
  {
    var n := if e.Insert? then e.at else e.at + 1;
    assert (a + tail)[..e.at] == a[..e.at];
    assert (a + tail)[n..] == a[n..] + tail;
  }

  lemma {:induction false} DeleteFirst(a: string, rest: seq<Edit>, b: string)
    requires a != "" && Transforms(Front(a), rest, b)
    ensures Transforms(a, [Delete(|a| - 1)] + rest, b)
  {
    var e := Delete(|a| - 1);
    assert Apply(a, e) == Front(a);
    assert ([e] + rest)[1..] == rest;
  }

  lemma {:induction false} ThenOne(a: string, rest: seq<Edit>, b: string, e: Edit)
    requires Transforms(a, rest, b) && Applicable(b, e)
    ensures Transforms(a, rest + [e], Apply(b, e))
  {
    hide Apply;
    assert [e][1..] == [];
    TransformsChain(a, rest, b, [e], Apply(b, e));
  }

  lemma {:induction false} InsertLast(a: string, rest: seq<Edit>, b: string)
    requires b != "" && Transforms(a, rest, Front(b))
    ensures Transforms(a, rest + [Insert(|b| - 1, Last(b))], b)
  {
    var e := Insert(|b| - 1, Last(b));
    assert Apply(Front(b), e) == b;
    ThenOne(a, rest, Front(b), e);
  }

  lemma {:induction false} MatchLast(a: string, rest: seq<Edit>, b: string) returns (script: seq<Edit>)
    requires a != "" && b != "" && Transforms(Front(a), rest, Front(b))
    ensures Transforms(a, script, b) && |script| == |rest| + Differ(Last(a), Last(b))
  {
    hide Transforms;
    var tail := [Last(a)];
    TransformsWithTail(Front(a), rest, Front(b), tail);
    assert Front(a) + tail == a;
    if Last(a) == Last(b) {
      assert Front(b) + tail == b;
      script := rest;
    } else {
      var e := Substitute(|b| - 1, Last(b));
      assert Apply(Front(b) + tail, e) == b;
      ThenOne(a, rest, Front(b) + tail, e);
      script := rest + [e];
    }
  }

  lemma TransformsNothing(a: string)
    ensures Transforms(a, [], a)
  {
  }

  lemma {:induction false} ScriptExists(a: string, b: string) returns (script: seq<Edit>)
    ensures Transforms(a, script, b) && |script| == Cell(a, b)
    decreases |a| + |b|
  {
    hide Transforms;
    if a == "" && b == "" {
      script := [];
      TransformsNothing(a);
    } else if a != "" && (b == "" || Cell(a, b) == Cell(Front(a), b) + 1) {
      var rest := ScriptExists(Front(a), b);
      DeleteFirst(a, rest, b);
      script := [Delete(|a| - 1)] + rest;
    } else if a == "" || Cell(a, b) == Cell(a, Front(b)) + 1 {
      var rest := ScriptExists(a, Front(b));
      InsertLast(a, rest, b);
      script := rest + [Insert(|b| - 1, Last(b))];
    } else {
      var rest := ScriptExists(Front(a), Front(b));
      script := MatchLast(a, rest, b);
    }
  }

  /* ---------- main results ---------- */

  /** `d` is the length of a shortest script from `a` to `b`. */
  ghost predicate IsDistance(a: string, b: string, d: nat) {
    && (exists script :: Transforms(a, script, b) && |script| == d)
    && (forall script :: Transforms(a, script, b) ==> d <= |script|)
  }

  lemma CellIsDistance(a: string, b: string)
    ensures IsDistance(a, b, Cell(a, b))
  {
    hide Cell, Transforms;
    var script := ScriptExists(a, b);
    forall other | Transforms(a, other, b)
      ensures Cell(a, b) <= |other|
    {
      NoScriptIsShorter(a, other, b);
    }
  }

  lemma {:induction false} CellSymmetric(a: string, b: string)
    ensures Cell(a, b) == Cell(b, a)
    decreases |a| + |b|
  {
    if a != "" && b != "" {
      CellSymmetric(a, Front(b));
      CellSymmetric(Front(a), b);
      CellSymmetric(Front(a), Front(b));
    }
  }

  /** Shortest-script lengths form a metric on strings: two strings are as far apart either
      way round, equal strings and only they are at distance 0, and detours are no shorter. */
  lemma DistanceIsAMetric(a: string, b: string, c: string) returns (ab: nat, bc: nat, ac: nat)
    ensures IsDistance(a, b, ab) && IsDistance(b, a, ab) && IsDistance(b, c, bc) && IsDistance(a, c, ac)
    ensures ab == 0 <==> a == b
    ensures ac <= ab + bc
  {
    hide Cell, Apply;
    ab, bc, ac := Cell(a, b), Cell(b, c), Cell(a, c);
    CellIsDistance(a, b);
    CellIsDistance(b, a);
    CellIsDistance(b, c);
    CellIsDistance(a, c);
    CellSymmetric(a, b);
    CellTriangle(a, b, c);
    if ab == 0 {
      var script :| Transforms(a, script, b) && |script| == 0;
    }
    if a == b { CellSame(a); }
  }

  /** There is only one distance between two strings. */
  lemma DistanceIsUnique(a: string, b: string, d: nat, e: nat)
    requires IsDistance(a, b, d) && IsDistance(a, b, e)
    ensures d == e
  {
    var s :| Transforms(a, s, b) && |s| == d;
    var t :| Transforms(a, t, b) && |t| == e;
  }

  /** The entry for two longer prefixes, from the three entries beside it. */
  lemma {:induction false} CellOfPrefixes(left: string, right: string, i: nat, j: nat)
    requires i < |left| && j < |right|
    ensures Cell(left[..i + 1], right[..j + 1])
         == Min(Min(Cell(left[..i + 1], right[..j]) + 1, Cell(left[..i], right[..j + 1]) + 1),
                Cell(left[..i], right[..j]) + Differ(left[i], right[j]))
  {
    hide Cell;
    CellOfLonger(left[..i + 1], left[..i], left[i], right[..j + 1], right[..j], right[j]);
  }

  lemma {:induction false} CellOfLonger(a: string, p: string, x: char, b: string, q: string, y: char)
    requires a == p + [x] && b == q + [y]
    ensures Cell(a, b) == Min(Min(Cell(a, q) + 1, Cell(p, b) + 1), Cell(p, q) + Differ(x, y))
  {
    hide Cell;
    CellUnfolds(a, b);
    assert Front(a) == p && Front(b) == q;
  }

  /** The two-row dynamic programme. */
  method Compute(left: string, right: string) returns (d: nat)
    ensures IsDistance(left, right, d)
  {
    hide Cell;
    var previous: seq<nat> := seq(|right| + 1, i requires 0 <= i => i);
    forall j | 0 <= j <= |right| { CellOfEmpty(left[..0], right[..j]); }
    for leftIndex := 0 to |left|
      invariant |previous| == |right| + 1
      invariant forall j :: 0 <= j <= |right| ==> previous[j] == Cell(left[..leftIndex], right[..j])
    {
      var current: seq<nat> := [leftIndex + 1];
      CellOfEmpty(left[..leftIndex + 1], right[..0]);
      for rightIndex := 0 to |right|
        invariant |current| == rightIndex + 1
        invariant forall j :: 0 <= j <= rightIndex ==> current[j] == Cell(left[..leftIndex + 1], right[..j])
      {
        CellOfPrefixes(left, right, leftIndex, rightIndex);
        current := current + [
          Min(Min(current[rightIndex] + 1, previous[rightIndex + 1] + 1),
              previous[rightIndex] + Differ(left[leftIndex], right[rightIndex]))];
      }
      previous := current;
    }
    d := previous[|right|];
    assert left[..|left|] == left && right[..|right|] == right;
    CellIsDistance(left, right);
  }

  /** The number of edits a mistyped query is forgiven. */
  function Tolerance(query: string): nat {
    if (|query| * 3 + 9) / 10 > 1 then (|query| * 3 + 9) / 10 else 1
  }

  /** The last rank of the palette's command match: a name is offered exactly when some script of
      one edit, or of at most three edits for ten characters of the query, rounded up, turns it
      into the query. */
  method FuzzyMatch(name: string, query: string) returns (offered: bool, distance: nat)
    ensures IsDistance(name, query, distance)
    ensures offered <==> exists script :: Transforms(name, script, query) && (|script| <= 1 || 10 * (|script| - 1) < 3 * |query|)
  {
    distance := Compute(name, query);
    offered := distance <= Tolerance(query);
  }
}
