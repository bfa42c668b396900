/**
 * The JavaScript string operations the application uses: `startsWith`,
 * `split` on a one-character separator, `join`, `includes` and `trim`, with
 * ECMAScript's WhiteSpace and LineTerminator sets (the ones `trim` and the
 * regular-expression class `\s` share).
 */
module Text {

  /** LineTerminator: LF, CR, LINE SEPARATOR, PARAGRAPH SEPARATOR. */
  predicate IsLineTerminator(c: char) {
    c == '\n' || c == '\r' || c == '\U{2028}' || c == '\U{2029}'
  }

  /** WhiteSpace or LineTerminator: what `trim` removes and `\s` matches. */
  predicate IsWhitespace(c: char) {
    || IsLineTerminator(c)
    || c == '\t' || c == '\U{000B}' || c == '\U{000C}' || c == ' '
    || c == '\U{00A0}' || c == '\U{1680}' || ('\U{2000}' <= c <= '\U{200A}')
    || c == '\U{202F}' || c == '\U{205F}' || c == '\U{3000}' || c == '\U{FEFF}'
  }

  predicate AllWhitespace(s: string) {
    forall k :: 0 <= k < |s| ==> IsWhitespace(s[k])
  }

  /** `s.startsWith(prefix)` */
  predicate StartsWith(s: string, prefix: string) {
    |prefix| <= |s| && s[..|prefix|] == prefix
  }

  /** `s.trimStart()`: drops whitespace from the front. */
  function TrimStart(s: string): (r: string)
    ensures |r| <= |s|
  {
    if |s| > 0 && IsWhitespace(s[0]) then TrimStart(s[1..]) else s
  }

  /** `s.trimEnd()`: drops whitespace from the back. */
  function TrimEnd(s: string): (r: string)
    ensures |r| <= |s|
  {
    if |s| > 0 && IsWhitespace(s[|s| - 1]) then TrimEnd(s[..|s| - 1]) else s
  }

  /** `s.trim()` */
  function Trim(s: string): string
  {
    TrimEnd(TrimStart(s))
  }

  /** `r` is `s` with a run of whitespace cut from its front, and `r`
      does not start with whitespace. */
  predicate CutFront(s: string, r: string) {
    && |r| <= |s| && r == s[|s| - |r|..]
    && AllWhitespace(s[..|s| - |r|])
    && (r == [] || !IsWhitespace(r[0]))
  }

  /** `r` is `s` with a run of whitespace cut from its back, and `r` does
      not end with whitespace. */
  predicate CutBack(s: string, r: string) {
    && |r| <= |s| && r == s[..|r|]
    && AllWhitespace(s[|r|..])
    && (r == [] || !IsWhitespace(r[|r| - 1]))
  }

  /** What `trimStart` keeps is a suffix, everything it cuts is whitespace,
      and what it keeps does not start with whitespace. */
  lemma {:induction false} TrimStartCuts(s: string)
    ensures CutFront(s, TrimStart(s))
  {
    if |s| > 0 && IsWhitespace(s[0]) {
      TrimStartCuts(s[1..]);
      CutFrontStep(s, TrimStart(s[1..]));
    } else {
      assert s[|s| - |s|..] == s;
    }
  }

  lemma {:induction false} CutFrontStep(s: string, r: string)
    requires |s| > 0 && IsWhitespace(s[0]) && CutFront(s[1..], r)
    ensures CutFront(s, r)
  {
    assert s[1..][|s| - 1 - |r|..] == s[|s| - |r|..];
    forall k | 0 <= k < |s| - |r|
      ensures IsWhitespace(s[k])
    {
      if k > 0 {
        assert s[k] == s[1..][..|s| - 1 - |r|][k - 1];
      }
    }
  }

  /** What `trimEnd` keeps is a prefix, everything it cuts is whitespace,
      and what it keeps does not end with whitespace. */
  lemma {:induction false} TrimEndCuts(s: string)
    ensures CutBack(s, TrimEnd(s))
  {
    if |s| > 0 && IsWhitespace(s[|s| - 1]) {
      TrimEndCuts(s[..|s| - 1]);
      CutBackStep(s, TrimEnd(s[..|s| - 1]));
    } else {
      assert s[..|s|] == s;
    }
  }

  lemma {:induction false} CutBackStep(s: string, r: string)
    requires |s| > 0 && IsWhitespace(s[|s| - 1]) && CutBack(s[..|s| - 1], r)
    ensures CutBack(s, r)
  {
    var init := s[..|s| - 1];
    assert init[..|r|] == s[..|r|];
    forall k | |r| <= k < |s|
      ensures IsWhitespace(s[k])
    {
      if k < |s| - 1 {
        assert s[k] == init[|r|..][k - |r|];
      }
    }
  }

  /** The characterisation of `trim`: the result is the middle of `s` left
      when the whitespace on both ends is cut away. */
  lemma {:induction false} TrimIsMiddle(s: string)
    ensures exists i, j :: 0 <= i <= j <= |s| && Trim(s) == s[i..j]
                        && AllWhitespace(s[..i]) && AllWhitespace(s[j..])
  {
    var t := TrimStart(s);
    TrimStartCuts(s);
    TrimEndCuts(t);
    var i := |s| - |t|;
    var j := i + |TrimEnd(t)|;
    assert s[i..] == t;
    assert s[i..j] == t[..|TrimEnd(t)|];
    assert s[j..] == t[|TrimEnd(t)|..];
  }

  /** What `trim` returns neither starts nor ends with whitespace. */
  lemma {:induction false} TrimEnds(s: string)
    ensures Trim(s) == [] || (!IsWhitespace(Trim(s)[0]) && !IsWhitespace(Trim(s)[|Trim(s)| - 1]))
  {
    var t := TrimStart(s);
    TrimStartCuts(s);
    TrimEndCuts(t);
    if Trim(s) != [] {
      assert Trim(s)[0] == t[0];
    }
  }

  /** Trimming twice is trimming once. */
  lemma {:induction false} TrimIdempotent(s: string)
    ensures Trim(Trim(s)) == Trim(s)
  {
    TrimEnds(s);
    if Trim(s) != [] {
      UnpaddedIsTrimmed(Trim(s));
    }
  }

  /** Text that neither starts nor ends with whitespace is its own trim. */
  lemma {:induction false} UnpaddedIsTrimmed(s: string)
    requires |s| > 0 && !IsWhitespace(s[0]) && !IsWhitespace(s[|s| - 1])
    ensures Trim(s) == s
  {
    assert TrimStart(s) == s;
  }

  /** Trimming the front of `t + back`, where `back` starts with
      non-whitespace, only trims `t`. */
  lemma {:induction false} TrimStartBeforeNonWhitespace(t: string, back: string)
    requires back == [] || !IsWhitespace(back[0])
    ensures TrimStart(t + back) == TrimStart(t) + back
  {
    if TrimStart(t) == [] {
      TrimStartCuts(t);
      assert t[..|t|] == t;
      TrimStartIgnoresPadding(t, back);
      assert TrimStart(back) == back;
      assert [] + back == back;
    } else {
      TrimStartAppend(t, back);
    }
  }

  /** Whitespace added on either side does not change what `trim` returns. */
  lemma {:induction false} TrimIgnoresPadding(front: string, s: string, back: string)
    requires AllWhitespace(front) && AllWhitespace(back)
    ensures Trim(front + s + back) == Trim(s)
  {
    assert front + s + back == front + (s + back);
    TrimStartIgnoresPadding(front, s + back);
    if TrimStart(s) == [] {
      TrimStartCuts(s);
      assert s[..|s|] == s;
      assert AllWhitespace(s + back);
      WhitespaceTrimsAway(s + back);
    } else {
      TrimStartAppend(s, back);
      TrimEndIgnoresPadding(TrimStart(s), back);
    }
  }

  lemma {:induction false} TrimStartIgnoresPadding(front: string, s: string)
    requires AllWhitespace(front)
    ensures TrimStart(front + s) == TrimStart(s)
  {
    if |front| > 0 {
      assert (front + s)[1..] == front[1..] + s;
      TrimStartIgnoresPadding(front[1..], s);
    } else {
      assert front + s == s;
    }
  }

  lemma {:induction false} TrimEndIgnoresPadding(s: string, back: string)
    requires AllWhitespace(back)
    ensures TrimEnd(s + back) == TrimEnd(s)
  {
    if |back| > 0 {
      assert (s + back)[..|s + back| - 1] == s + back[..|back| - 1];
      TrimEndIgnoresPadding(s, back[..|back| - 1]);
    } else {
      assert s + back == s;
    }
  }

  lemma {:induction false} WhitespaceTrimsAway(s: string)
    requires AllWhitespace(s)
    ensures TrimStart(s) == []
  {
    if |s| > 0 {
      WhitespaceTrimsAway(s[1..]);
    }
  }

  /** When `s` holds something besides whitespace, trimming the front of
      `s + back` stops inside `s`. */
  lemma {:induction false} TrimStartAppend(s: string, back: string)
    requires TrimStart(s) != []
    ensures TrimStart(s + back) == TrimStart(s) + back
  {
    if IsWhitespace(s[0]) {
      assert (s + back)[1..] == s[1..] + back;
      TrimStartAppend(s[1..], back);
    }
  }

  /** `parts.join(sep)` */
  function Join(parts: seq<string>, sep: string): string
  {
    if |parts| == 0 then ""
    else if |parts| == 1 then parts[0]
    else parts[0] + sep + Join(parts[1..], sep)
  }

  /** `s.split(sep)` for a one-character separator: the maximal pieces of `s`
      free of `sep`, in order; always at least one piece (`"".split(c)` is
      `[""]`). */
  function Split(s: string, sep: char): (r: seq<string>)
    ensures |r| >= 1
    ensures sep in s ==> |r| >= 2
  {
    if |s| == 0 then [""] else PushPiece(s[0], sep, Split(s[1..], sep))
  }

  /** The pieces of `[c] + t` from those of `t`: a separator starts a new,
      empty first piece; any other character joins the first piece. */
  function PushPiece(c: char, sep: char, pieces: seq<string>): seq<string>
    requires |pieces| >= 1
  {
    if c == sep then [""] + pieces else [[c] + pieces[0]] + pieces[1..]
  }

  /** No piece holds the separator. */
  lemma {:induction false} SplitPiecesFree(s: string, sep: char)
    ensures forall k :: 0 <= k < |Split(s, sep)| ==> sep !in Split(s, sep)[k]
  {
    if |s| > 0 {
      SplitPiecesFree(s[1..], sep);
      var rest := Split(s[1..], sep);
      if s[0] != sep {
        assert sep !in rest[0];
        assert sep !in [s[0]] + rest[0];
      }
    }
  }

  /** Joining the pieces with the separator gives back the string. */
  lemma {:induction false} JoinSplit(s: string, sep: char)
    ensures Join(Split(s, sep), [sep]) == s
  {
    if |s| > 0 {
      var rest := Split(s[1..], sep);
      JoinSplit(s[1..], sep);
      assert s == [s[0]] + s[1..];
      SplitCons(s[0], s[1..], sep);
      if s[0] == sep {
        JoinAfterEmpty(rest, [sep]);
      } else {
        JoinExtendsFirst(s[0], rest, [sep]);
      }
    }
  }

  /** An empty first piece contributes only its separator. */
  lemma {:induction false} JoinAfterEmpty(parts: seq<string>, sep: string)
    requires |parts| >= 1
    ensures Join([""] + parts, sep) == sep + Join(parts, sep)
  {
    assert ([""] + parts)[1..] == parts;
  }

  /** A character added to the first piece comes first in the join. */
  lemma {:induction false} JoinExtendsFirst(c: char, parts: seq<string>, sep: string)
    requires |parts| >= 1
    ensures Join([[c] + parts[0]] + parts[1..], sep) == [c] + Join(parts, sep)
  {
    var ext := [[c] + parts[0]] + parts[1..];
    assert ext[1..] == parts[1..];
  }

  /** A string without the separator is a single piece. */
  lemma {:induction false} SplitWithoutSeparator(s: string, sep: char)
    requires sep !in s
    ensures Split(s, sep) == [s]
  {
    if |s| > 0 {
      assert sep !in s[1..];
      SplitWithoutSeparator(s[1..], sep);
      assert [s[0]] + s[1..] == s;
    }
  }

  /** The text before the first separator is the first piece; splitting
      carries on after it. */
  lemma {:induction false} SplitAtFirst(head: string, sep: char, tail: string)
    requires sep !in head
    ensures Split(head + [sep] + tail, sep) == [head] + Split(tail, sep)
  {
    var s := head + [sep] + tail;
    if |head| == 0 {
      assert s[1..] == tail;
    } else {
      assert s[1..] == head[1..] + [sep] + tail;
      SplitAtFirst(head[1..], sep, tail);
      assert [head[0]] + head[1..] == head;
    }
  }

  /** Splitting the join of separator-free pieces gives back the pieces. */
  lemma {:induction false} SplitJoin(parts: seq<string>, sep: char)
    requires |parts| >= 1
    requires forall k :: 0 <= k < |parts| ==> sep !in parts[k]
    ensures Split(Join(parts, [sep]), sep) == parts
  {
    if |parts| == 1 {
      SplitWithoutSeparator(parts[0], sep);
    } else {
      SplitJoin(parts[1..], sep);
      SplitAtFirst(parts[0], sep, Join(parts[1..], [sep]));
      assert [parts[0]] + parts[1..] == parts;
    }
  }

  /** A character absent from `s` is absent from every piece of it. */
  lemma {:induction false} SplitPiecesOmit(s: string, sep: char, c: char)
    requires c !in s
    ensures forall k :: 0 <= k < |Split(s, sep)| ==> c !in Split(s, sep)[k]
  {
    if |s| > 0 {
      assert c !in s[1..];
      SplitPiecesOmit(s[1..], sep, c);
    }
  }

  /** A separator between `a` and `b` splits them apart and nothing else:
      the pieces of `a`, then those of `b`. */
  lemma {:induction false} SplitAround(a: string, sep: char, b: string)
    ensures Split(a + [sep] + b, sep) == Split(a, sep) + Split(b, sep)
  {
    if |a| == 0 {
      assert a + [sep] + b == [sep] + b;
      SplitCons(sep, b, sep);
    } else {
      SplitAround(a[1..], sep, b);
      assert a == [a[0]] + a[1..];
      assert a + [sep] + b == [a[0]] + (a[1..] + [sep] + b);
      SplitAroundStep(a[0], a[1..], sep, b);
    }
  }

  /** The inductive step of `SplitAround`: one more character in front. */
  lemma {:induction false} SplitAroundStep(c: char, a: string, sep: char, b: string)
    requires Split(a + [sep] + b, sep) == Split(a, sep) + Split(b, sep)
    ensures Split([c] + (a + [sep] + b), sep) == Split([c] + a, sep) + Split(b, sep)
  {
    SplitCons(c, a + [sep] + b, sep);
    SplitCons(c, a, sep);
    PushPieceAppend(c, sep, Split(a, sep), Split(b, sep));
  }

  lemma {:induction false} PushPieceAppend(c: char, sep: char, front: seq<string>, back: seq<string>)
    requires |front| >= 1
    ensures PushPiece(c, sep, front + back) == PushPiece(c, sep, front) + back
  {
    if c == sep {
      assert [""] + (front + back) == ([""] + front) + back;
    } else {
      assert (front + back)[1..] == front[1..] + back;
    }
  }

  /** Splitting a text by its first character. */
  lemma {:induction false} SplitCons(c: char, t: string, sep: char)
    ensures Split([c] + t, sep) == PushPiece(c, sep, Split(t, sep))
  {
    assert ([c] + t)[1..] == t;
  }

  /** Joining two non-empty lists puts one separator between their joins. */
  lemma {:induction false} JoinAppend(x: seq<string>, y: seq<string>, sep: string)
    requires |x| >= 1 && |y| >= 1
    ensures Join(x + y, sep) == Join(x, sep) + sep + Join(y, sep)
  {
    if |x| == 1 {
      assert (x + y)[1..] == y;
    } else {
      assert (x + y)[1..] == x[1..] + y;
      JoinAppend(x[1..], y, sep);
    }
  }
}
