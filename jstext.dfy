/**
 * JavaScript strings as the embedded client sees them: sequences of UTF-16
 * code units, with the few String operations popup.js relies on
 * (`split('\n')`, `join('\n')`, `trim()`, `toLowerCase()`, `includes`).
 */
module JsText {

  /** One UTF-16 code unit. */
  type Unit = u: int | 0 <= u < 0x1_0000

  /** A JavaScript string value. */
  type JsString = seq<Unit>

  /** The line feed, the separator of `split('\n')` and `join('\n')`. */
  const NL: Unit := 0x0A

  // ---------------------------------------------------------------------
  // UTF-16
  // ---------------------------------------------------------------------

  /** The code units of one Unicode scalar value: itself below U+10000,
      otherwise a high surrogate followed by a low surrogate. */
  function Utf16Units(c: char): (r: seq<Unit>)
    ensures |r| == (if c as int < 0x1_0000 then 1 else 2)
    ensures |r| == 1 ==> r[0] == c as int
    ensures |r| == 2 ==>
      && 0xD800 <= r[0] < 0xDC00 <= r[1] < 0xE000
      && (r[0] as int - 0xD800) * 0x400 + (r[1] as int - 0xDC00) + 0x1_0000 == c as int
  {
    var v := c as int;
    if v < 0x1_0000 then [v]
    else [0xD800 + (v - 0x1_0000) / 0x400, 0xDC00 + (v - 0x1_0000) % 0x400]
  }

  /** The JavaScript string holding the same text as a Python or Dafny string. */
  function ToUtf16(s: string): (r: JsString)
    ensures |r| >= |s|
  {
    if s == [] then [] else Utf16Units(s[0]) + ToUtf16(s[1..])
  }

  lemma {:induction false} ToUtf16Append(a: string, b: string)
    ensures ToUtf16(a + b) == ToUtf16(a) + ToUtf16(b)
  {
    if a != [] {
      assert (a + b)[0] == a[0] && (a + b)[1..] == a[1..] + b;
      assert ToUtf16(a + b) == Utf16Units(a[0]) + ToUtf16(a[1..] + b);
      ToUtf16Append(a[1..], b);
    } else {
      assert a + b == b;
    }
  }

  /** Below U+10000 every character is one code unit, so the length and the
      indices of the text are those of the JavaScript string. */
  lemma {:induction false} ToUtf16Bmp(s: string)
    requires forall i | 0 <= i < |s| :: s[i] as int < 0x1_0000
    ensures |ToUtf16(s)| == |s|
    ensures forall i | 0 <= i < |s| :: ToUtf16(s)[i] == s[i] as int
  {
    if s != [] {
      ToUtf16Bmp(s[1..]);
    }
  }

  // ---------------------------------------------------------------------
  // split('\n') and join('\n')
  // ---------------------------------------------------------------------

  /** `s.split('\n')`: the pieces between line feeds, always at least one. */
  function Split(s: JsString): (r: seq<JsString>)
    ensures |r| >= 1
    decreases |s|
  {
    if s == [] then [[]]
    else if s[0] == NL then [[]] + Split(s[1..])
    else
      var t := Split(s[1..]);
      [[s[0]] + t[0]] + t[1..]
  }

  /** `pieces.join('\n')`. */
  function Join(pieces: seq<JsString>): (r: JsString)
    ensures |pieces| == 1 ==> r == pieces[0]
  {
    if |pieces| == 0 then []
    else if |pieces| == 1 then pieces[0]
    else pieces[0] + [NL] + Join(pieces[1..])
  }

  /** The last piece of `s.split('\n')`: what follows the last line feed. */
  function Tail(s: JsString): JsString {
    var p := Split(s);
    p[|p| - 1]
  }

  /** The complete lines of `s`: every piece that a line feed ends. */
  function CompleteLines(s: JsString): seq<JsString> {
    var p := Split(s);
    p[..|p| - 1]
  }

  /** Joining the pieces gives back the string that was split. */
  lemma {:induction false} JoinSplit(s: JsString)
    ensures Join(Split(s)) == s
    decreases |s|
  {
    if s != [] {
      JoinSplit(s[1..]);
      var t := Split(s[1..]);
      if s[0] != NL && |t| > 1 {
        assert ([[s[0]] + t[0]] + t[1..])[1..] == t[1..];
      }
    }
  }

  /** Splitting a line that no line feed interrupts, followed by a line
      feed, peels off exactly that line. */
  lemma {:induction false} SplitLine(a: JsString, b: JsString)
    requires forall k | 0 <= k < |a| :: a[k] != NL
    ensures Split(a + [NL] + b) == [a] + Split(b)
    decreases |a|
  {
    if a == [] {
      assert a + [NL] + b == [NL] + b;
      assert ([NL] + b)[1..] == b;
    } else {
      var s := a + [NL] + b;
      assert s[0] == a[0] && s[1..] == a[1..] + [NL] + b;
      SplitLine(a[1..], b);
      assert [a[0]] + a[1..] == a;
    }
  }

  /** Splitting the join of line-feed-free pieces gives back the pieces. */
  lemma {:induction false} SplitJoin(pieces: seq<JsString>)
    requires |pieces| >= 1
    requires forall i, k | 0 <= i < |pieces| && 0 <= k < |pieces[i]| :: pieces[i][k] != NL
    ensures Split(Join(pieces)) == pieces
    decreases |pieces|
  {
    if |pieces| == 1 {
      SplitNoNL(pieces[0]);
    } else {
      SplitJoin(pieces[1..]);
      SplitLine(pieces[0], Join(pieces[1..]));
      assert [pieces[0]] + pieces[1..] == pieces;
    }
  }

  /** A string without a line feed splits into itself. */
  lemma {:induction false} SplitNoNL(a: JsString)
    requires forall k | 0 <= k < |a| :: a[k] != NL
    ensures Split(a) == [a]
    decreases |a|
  {
    if a != [] {
      SplitNoNL(a[1..]);
      assert [a[0]] + a[1..] == a;
    }
  }

  /** Splitting is compositional: appending `y` to `x` only re-splits the
      unfinished last piece of `x`. This is what lets a reader keep just
      that piece between chunks. */
  lemma {:induction false} SplitAppend(x: JsString, y: JsString)
    ensures Split(x + y) == CompleteLines(x) + Split(Tail(x) + y)
    decreases |x|
  {
    if x == [] {
      assert x + y == y;
    } else {
      var c, x' := x[0], x[1..];
      assert x == [c] + x';
      assert x + y == [c] + (x' + y);
      SplitAppend(x', y);
      if c == NL {
        SplitAppendNL(x', y);
      } else {
        SplitAppendOther(c, x', y);
      }
    }
  }

  /** What a reader that keeps the unfinished piece sees: the complete
      lines of `x + y` are those of `x` followed by those of the kept piece
      with `y` appended, and the new unfinished piece comes from the latter. */
  lemma CompleteLinesAppend(x: JsString, y: JsString)
    ensures CompleteLines(x + y) == CompleteLines(x) + CompleteLines(Tail(x) + y)
    ensures Tail(x + y) == Tail(Tail(x) + y)
  {
    SplitAppend(x, y);
    Snoc(Split(x + y), CompleteLines(x), Split(Tail(x) + y));
  }

  /** Dropping or taking the last element of `q + r` with `r` non-empty. */
  lemma Snoc<T>(p: seq<T>, q: seq<T>, r: seq<T>)
    requires |r| >= 1 && p == q + r
    ensures p[..|p| - 1] == q + r[..|r| - 1]
    ensures p[|p| - 1] == r[|r| - 1]
  {
  }

  /** No piece of a split holds a line feed. */
  lemma {:induction false} SplitPieces(s: JsString)
    ensures forall i, k | 0 <= i < |Split(s)| && 0 <= k < |Split(s)[i]| :: Split(s)[i][k] != NL
    decreases |s|
  {
    if s != [] {
      SplitPieces(s[1..]);
    }
  }

  lemma SplitAppendNL(x': JsString, y: JsString)
    requires Split(x' + y) == CompleteLines(x') + Split(Tail(x') + y)
    ensures Split([NL] + (x' + y)) == CompleteLines([NL] + x') + Split(Tail([NL] + x') + y)
  {
    SplitConsNL(x');
    SplitConsNL(x' + y);
    SplitLast(x');
    SplitLast([NL] + x');
    assert Split([NL] + x') == ([[]] + CompleteLines(x')) + [Tail(x')];
    SnocInjective(CompleteLines([NL] + x'), Tail([NL] + x'), [[]] + CompleteLines(x'), Tail(x'));
    assert [[]] + (CompleteLines(x') + Split(Tail(x') + y)) == ([[]] + CompleteLines(x')) + Split(Tail(x') + y);
  }

  lemma SplitAppendOther(c: Unit, x': JsString, y: JsString)
    requires c != NL
    requires Split(x' + y) == CompleteLines(x') + Split(Tail(x') + y)
    ensures Split([c] + (x' + y)) == CompleteLines([c] + x') + Split(Tail([c] + x') + y)
  {
    SplitConsOther(c, x');
    SplitConsOther(c, x' + y);
    SplitLast(x');
    SplitLast([c] + x');
    if CompleteLines(x') == [] {
      SplitAppendFirstLine(c, x', y);
    } else {
      SplitAppendLaterLine(c, x', y);
    }
  }

  /** SplitAppendOther when `x'` holds no line feed: `c` joins the piece
      that `y` continues. */
  lemma SplitAppendFirstLine(c: Unit, x': JsString, y: JsString)
    requires c != NL && CompleteLines(x') == []
    requires Split(x' + y) == CompleteLines(x') + Split(Tail(x') + y)
    requires Split([c] + x') == ConsLine(c, Split(x')) && Split([c] + (x' + y)) == ConsLine(c, Split(x' + y))
    requires Split(x') == CompleteLines(x') + [Tail(x')] && Split([c] + x') == CompleteLines([c] + x') + [Tail([c] + x')]
    ensures Split([c] + (x' + y)) == CompleteLines([c] + x') + Split(Tail([c] + x') + y)
  {
    var last := Tail(x');
    assert Split(x') == [last];
    assert Split([c] + x') == [] + [[c] + last];
    SnocInjective(CompleteLines([c] + x'), Tail([c] + x'), [], [c] + last);
    assert Split(x' + y) == Split(last + y);
    SplitConsOther(c, last + y);
    Regroup([c], last, y);
  }

  lemma Regroup<T>(a: seq<T>, b: seq<T>, c: seq<T>)
    ensures a + (b + c) == (a + b) + c
  {
  }

  /** SplitAppendOther when `x'` holds a line feed: `c` joins its first
      complete line. */
  lemma SplitAppendLaterLine(c: Unit, x': JsString, y: JsString)
    requires c != NL && CompleteLines(x') != []
    requires Split(x' + y) == CompleteLines(x') + Split(Tail(x') + y)
    requires Split([c] + x') == ConsLine(c, Split(x')) && Split([c] + (x' + y)) == ConsLine(c, Split(x' + y))
    requires Split(x') == CompleteLines(x') + [Tail(x')] && Split([c] + x') == CompleteLines([c] + x') + [Tail([c] + x')]
    ensures Split([c] + (x' + y)) == CompleteLines([c] + x') + Split(Tail([c] + x') + y)
  {
    var lines, last, rest := CompleteLines(x'), Tail(x'), Split(Tail(x') + y);
    ConsLineAppend(c, lines, [last]);
    SnocInjective(CompleteLines([c] + x'), Tail([c] + x'), ConsLine(c, lines), last);
    ConsLineAppend(c, lines, rest);
  }

  lemma SplitConsNL(s: JsString)
    ensures Split([NL] + s) == [[]] + Split(s)
  {
    assert ([NL] + s)[1..] == s;
  }

  lemma SplitConsOther(c: Unit, s: JsString)
    requires c != NL
    ensures Split([c] + s) == ConsLine(c, Split(s))
  {
    assert ([c] + s)[1..] == s;
  }

  /** `c` put in front of the first piece. */
  function ConsLine(c: Unit, t: seq<JsString>): (r: seq<JsString>)
    requires |t| >= 1
    ensures |r| == |t|
  {
    [[c] + t[0]] + t[1..]
  }

  lemma ConsLineAppend(c: Unit, t: seq<JsString>, rest: seq<JsString>)
    requires |t| >= 1
    ensures ConsLine(c, t + rest) == ConsLine(c, t) + rest
  {
    assert (t + rest)[0] == t[0];
    assert (t + rest)[1..] == t[1..] + rest;
  }

  /** The split is the complete lines followed by the tail. */
  lemma SplitLast(s: JsString)
    ensures Split(s) == CompleteLines(s) + [Tail(s)]
  {
  }

  lemma SnocInjective(a: seq<JsString>, b: JsString, c: seq<JsString>, d: JsString)
    requires a + [b] == c + [d]
    ensures a == c && b == d
  {
    assert a == (a + [b])[..|a|];
    assert c == (c + [d])[..|c|];
    assert b == (a + [b])[|a|];
  }

  // ---------------------------------------------------------------------
  // trim()
  // ---------------------------------------------------------------------

  /** The code units `String.prototype.trim` removes: ECMAScript WhiteSpace
      (tab, vertical tab, form feed, space, no-break space, the byte order
      mark and the Space_Separator characters) and LineTerminator. */
  predicate IsJsSpace(u: Unit) {
    || u == 0x09 || u == 0x0A || u == 0x0B || u == 0x0C || u == 0x0D
    || u == 0x20 || u == 0xA0 || u == 0x1680
    || (0x2000 <= u <= 0x200A)
    || u == 0x2028 || u == 0x2029 || u == 0x202F || u == 0x205F
    || u == 0x3000 || u == 0xFEFF
  }

  /** The number of leading white-space code units. */
  function LeadingSpaces(s: JsString): (k: nat)
    ensures k <= |s|
    ensures forall i | 0 <= i < k :: IsJsSpace(s[i])
    ensures k < |s| ==> !IsJsSpace(s[k])
  {
    if s != [] && IsJsSpace(s[0]) then 1 + LeadingSpaces(s[1..]) else 0
  }

  /** The number of trailing white-space code units. */
  function TrailingSpaces(s: JsString): (k: nat)
    ensures k <= |s|
    ensures forall i | |s| - k <= i < |s| :: IsJsSpace(s[i])
    ensures k < |s| ==> !IsJsSpace(s[|s| - k - 1])
  {
    if s != [] && IsJsSpace(s[|s| - 1]) then 1 + TrailingSpaces(s[..|s| - 1]) else 0
  }

  /** `r` is `s` with white space only around it: it starts where the
      leading white space of `s` ends, and only white space follows it. */
  ghost predicate TrimmedFrom(s: JsString, r: JsString) {
    && LeadingSpaces(s) + |r| <= |s|
    && r == s[LeadingSpaces(s)..LeadingSpaces(s) + |r|]
    && forall i | LeadingSpaces(s) + |r| <= i < |s| :: IsJsSpace(s[i])
  }

  /** `s.trim()`: `s` with its leading and trailing white space removed. */
  function Trim(s: JsString): (r: JsString)
    ensures |r| <= |s|
    ensures TrimmedFrom(s, r)
    ensures r == [] || (!IsJsSpace(r[0]) && !IsJsSpace(r[|r| - 1]))
    ensures r == [] <==> forall i | 0 <= i < |s| :: IsJsSpace(s[i])
  {
    var rest := s[LeadingSpaces(s)..];
    TrimSlice(s, LeadingSpaces(s), TrailingSpaces(rest));
    rest[..|rest| - TrailingSpaces(rest)]
  }

  /** Dropping `a` units in front and then `t` at the back is the slice
      `s[a..|s| - t]`, and white space at the back of the rest is white space
      at the back of `s`. */
  lemma TrimSlice(s: JsString, a: nat, t: nat)
    requires a <= |s| && t <= |s| - a
    requires forall i | |s| - a - t <= i < |s| - a :: IsJsSpace(s[a..][i])
    ensures s[a..][..|s| - a - t] == s[a..|s| - t]
    ensures forall i | |s| - t <= i < |s| :: IsJsSpace(s[i])
  {
    forall i | |s| - t <= i < |s|
      ensures IsJsSpace(s[i])
    {
      assert s[i] == s[a..][i - a];
    }
  }

  /** Trimming twice is trimming once. */
  lemma TrimIdempotent(s: JsString)
    ensures Trim(Trim(s)) == Trim(s)
  {
    var t := Trim(s);
    if t != [] {
      assert LeadingSpaces(t) == 0;
      assert TrailingSpaces(t) == 0;
    }
  }

  // ---------------------------------------------------------------------
  // toLowerCase() and includes()
  // ---------------------------------------------------------------------

  /** Lower-casing of one code unit, for the letters A to Z. */
  function LowerUnit(u: Unit): Unit {
    if 'A' as int <= u <= 'Z' as int then u + 32 else u
  }

  /** `s.toLowerCase()` restricted to ASCII letters. */
  function Lower(s: JsString): (r: JsString)
    ensures |r| == |s|
    ensures forall i | 0 <= i < |s| :: !('A' as int <= r[i] <= 'Z' as int)
    ensures forall i | 0 <= i < |s| :: 'A' as int <= s[i] <= 'Z' as int ==> r[i] == s[i] + 32
    ensures forall i | 0 <= i < |s| :: !('A' as int <= s[i] <= 'Z' as int) ==> r[i] == s[i]
  {
    seq(|s|, i requires 0 <= i < |s| => LowerUnit(s[i]))
  }

  /** Lower-casing twice is lower-casing once. */
  lemma LowerIdempotent(s: JsString)
    ensures Lower(Lower(s)) == Lower(s)
  {
  }

  lemma {:induction false} LowerAppend(a: JsString, b: JsString)
    ensures Lower(a + b) == Lower(a) + Lower(b)
  {
  }

  /** `k` occurs in `s` starting at index `i`. */
  ghost predicate OccursAt(s: JsString, k: JsString, i: int) {
    0 <= i && i + |k| <= |s| && s[i..i + |k|] == k
  }

  /** `s.includes(k)`. */
  function Includes(s: JsString, k: JsString): (r: bool)
    ensures r <==> exists i :: OccursAt(s, k, i)
    decreases |s|
  {
    if |k| > |s| then
      assert forall i :: !OccursAt(s, k, i);
      false
    else if s[..|k|] == k then
      assert OccursAt(s, k, 0);
      true
    else
      var r := Includes(s[1..], k);
      assert r ==> exists i :: OccursAt(s, k, i) by {
        if r {
          var i :| OccursAt(s[1..], k, i);
          assert s[1..][i..i + |k|] == s[i + 1..i + 1 + |k|];
          assert OccursAt(s, k, i + 1);
        }
      }
      assert (exists i :: OccursAt(s, k, i)) ==> r by {
        if exists i :: OccursAt(s, k, i) {
          var i :| OccursAt(s, k, i);
          assert i != 0;
          assert s[1..][i - 1..i - 1 + |k|] == s[i..i + |k|];
          assert OccursAt(s[1..], k, i - 1);
        }
      }
      r
  }

  /** `keywords.some(k => s.includes(k))`. */
  function IncludesAny(s: JsString, keywords: seq<JsString>): (r: bool)
    ensures r <==> exists j | 0 <= j < |keywords| :: Includes(s, keywords[j])
  {
    if keywords == [] then false
    else Includes(s, keywords[0]) || IncludesAny(s, keywords[1..])
  }
}
