/** Splitting a sequence at a separator, joining it back, and trimming. */
module Text {

  // ---- Split and join

  /** The pieces between separators: one more than there are separators. */
  function Split<T(==)>(s: seq<T>, sep: T): (r: seq<seq<T>>)
    ensures |r| > 0
  {
    if s == [] then [[]]
    else if s[0] == sep then [[]] + Split(s[1..], sep)
    else
      var r := Split(s[1..], sep);
      [[s[0]] + r[0]] + r[1..]
  }

  function Join<T>(parts: seq<seq<T>>, sep: T): seq<T>
    requires |parts| > 0
  {
    if |parts| == 1 then parts[0] else parts[0] + [sep] + Join(parts[1..], sep)
  }

  ghost predicate NoneHolds<T>(parts: seq<seq<T>>, sep: T) {
    forall i :: 0 <= i < |parts| ==> sep !in parts[i]
  }

  lemma {:induction false} PiecesHoldNoSeparator<T>(s: seq<T>, sep: T)
    ensures NoneHolds(Split(s, sep), sep)
  {
    if s != [] {
      PiecesHoldNoSeparator(s[1..], sep);
    }
  }

  lemma {:induction false} JoinOfSplit<T>(s: seq<T>, sep: T)
    ensures Join(Split(s, sep), sep) == s
  {
    if s != [] {
      var r := Split(s[1..], sep);
      JoinOfSplit(s[1..], sep);
      if s[0] == sep {
        assert ([[]] + r)[1..] == r;
        assert s == [] + [sep] + s[1..];
      } else {
        var r' := [[s[0]] + r[0]] + r[1..];
        assert r'[1..] == r[1..];
        assert s == [s[0]] + s[1..];
        if |r| > 1 {
          assert [s[0]] + (r[0] + [sep] + Join(r[1..], sep)) == ([s[0]] + r[0]) + [sep] + Join(r[1..], sep);
        }
      }
    }
  }

  /** A piece with no separator in it, then a separator, starts the split. */
  lemma {:induction false} SplitAfterPiece<T>(piece: seq<T>, rest: seq<T>, sep: T)
    requires sep !in piece
    ensures Split(piece + [sep] + rest, sep) == [piece] + Split(rest, sep)
  {
    var s := piece + [sep] + rest;
    if piece == [] {
      assert s[1..] == rest;
    } else {
      assert s[1..] == piece[1..] + [sep] + rest;
      SplitAfterPiece(piece[1..], rest, sep);
      assert [piece[0]] + piece[1..] == piece;
    }
  }

  lemma {:induction false} SplitOfPiece<T>(piece: seq<T>, sep: T)
    requires sep !in piece
    ensures Split(piece, sep) == [piece]
  {
    if piece != [] {
      SplitOfPiece(piece[1..], sep);
      assert [piece[0]] + piece[1..] == piece;
    }
  }

  lemma {:induction false} SplitOfJoin<T>(parts: seq<seq<T>>, sep: T)
    requires |parts| > 0 && NoneHolds(parts, sep)
    ensures Split(Join(parts, sep), sep) == parts
  {
    if |parts| == 1 {
      SplitOfPiece(parts[0], sep);
    } else {
      SplitOfJoin(parts[1..], sep);
      SplitAfterPiece(parts[0], Join(parts[1..], sep), sep);
    }
  }

  /** Two lists of pieces put together with the last of one and the first of the other
      joined into one piece. */
  function Seam<T>(x: seq<seq<T>>, y: seq<seq<T>>): seq<seq<T>>
    requires |x| > 0 && |y| > 0
  {
    x[..|x| - 1] + [x[|x| - 1] + y[0]] + y[1..]
  }

  lemma SeamStep<T>(first: seq<T>, x: seq<seq<T>>, y: seq<seq<T>>)
    requires |x| > 0 && |y| > 0
    ensures Seam([first] + x, y) == [first] + Seam(x, y)
    ensures Seam([first + x[0]] + x[1..], y) == [first + Seam(x, y)[0]] + Seam(x, y)[1..]
  {
    assert ([first] + x)[..|x|] == [first] + x[..|x| - 1];
    var x' := [first + x[0]] + x[1..];
    if |x| == 1 {
      assert first + (x[0] + y[0]) == first + x[0] + y[0];
    } else {
      assert x'[..|x'| - 1] == [first + x[0]] + x[1..|x| - 1];
      assert Seam(x, y)[1..] == x[1..|x| - 1] + [x[|x| - 1] + y[0]] + y[1..];
    }
  }

  /** Splitting a concatenation splits both parts and joins the piece at the seam. */
  lemma {:induction false} SplitConcat<T>(a: seq<T>, b: seq<T>, sep: T)
    ensures Split(a + b, sep) == Seam(Split(a, sep), Split(b, sep))
  {
    if a == [] {
      assert a + b == b;
      var y := Split(b, sep);
      var none: seq<T> := [];
      assert none + y[0] == y[0];
      assert [y[0]] + y[1..] == y;
    } else {
      SplitConcat(a[1..], b, sep);
      assert (a + b)[1..] == a[1..] + b;
      SeamStep(if a[0] == sep then [] else [a[0]], Split(a[1..], sep), Split(b, sep));
    }
  }

  /** A separator splits into what stands before it and what stands after it. */
  lemma SplitAround<T>(a: seq<T>, b: seq<T>, sep: T)
    ensures Split(a + [sep] + b, sep) == Split(a, sep) + Split(b, sep)
  {
    assert a + [sep] + b == a + ([sep] + b) && ([sep] + b)[1..] == b;
    SplitConcat(a, [sep] + b, sep);
    SeamAtEmpty(Split(a, sep), Split(b, sep));
  }

  lemma SeamAtEmpty<T>(x: seq<seq<T>>, y: seq<seq<T>>)
    requires |x| > 0
    ensures Seam(x, [[]] + y) == x + y
  {
    assert x == x[..|x| - 1] + [x[|x| - 1]];
    assert x[|x| - 1] + [] == x[|x| - 1];
    assert ([[]] + y)[1..] == y;
  }

  /** Joining pieces that may hold separators themselves can only make more lines. */
  lemma {:induction false} SplitOfJoinGrows<T>(parts: seq<seq<T>>, sep: T)
    requires |parts| > 0
    ensures |Split(Join(parts, sep), sep)| >= |parts|
    ensures !NoneHolds(parts, sep) ==> |Split(Join(parts, sep), sep)| > |parts|
  {
    if sep in parts[0] { PieceWithSeparator(parts[0], sep); }
    if |parts| > 1 {
      SplitOfJoinGrows(parts[1..], sep);
      SplitAround(parts[0], Join(parts[1..], sep), sep);
      if sep !in parts[0] && NoneHolds(parts[1..], sep) {
        assert forall i :: 0 < i < |parts| ==> parts[i] == parts[1..][i - 1];
      }
    }
  }

  lemma {:induction false} PieceWithSeparator<T>(s: seq<T>, sep: T)
    requires sep in s
    ensures |Split(s, sep)| > 1
  {
    var i :| 0 <= i < |s| && s[i] == sep;
    assert s == s[..i] + [sep] + s[i + 1..];
    SplitAround(s[..i], s[i + 1..], sep);
  }

  // ---- Trimming

  /** `char::is_whitespace`: the characters of the Unicode property White_Space. */
  predicate IsWhitespace(c: char) {
    || '\t' <= c <= '\r' || c == ' ' || c == '\U{85}' || c == '\U{A0}' || c == '\U{1680}'
    || '\U{2000}' <= c <= '\U{200A}' || c == '\U{2028}' || c == '\U{2029}' || c == '\U{202F}'
    || c == '\U{205F}' || c == '\U{3000}'
  }

  function TrimStart(s: string): string {
    if s != [] && IsWhitespace(s[0]) then TrimStart(s[1..]) else s
  }

  function TrimEnd(s: string): string {
    if s != [] && IsWhitespace(s[|s| - 1]) then TrimEnd(s[..|s| - 1]) else s
  }

  function Trim(s: string): string {
    TrimEnd(TrimStart(s))
  }

  predicate Trimmed(s: string) {
    s == [] || (!IsWhitespace(s[0]) && !IsWhitespace(s[|s| - 1]))
  }

  ghost predicate Blank(s: string) {
    forall i :: 0 <= i < |s| ==> IsWhitespace(s[i])
  }

  /** What trimming the start takes away. */
  lemma {:induction false} TrimStartSide(s: string) returns (left: string)
    ensures Blank(left) && s == left + TrimStart(s)
    ensures TrimStart(s) == [] || !IsWhitespace(TrimStart(s)[0])
  {
    left := [];
    if s != [] && IsWhitespace(s[0]) {
      var more := TrimStartSide(s[1..]);
      left := [s[0]] + more;
      assert [s[0]] + (more + TrimStart(s)) == left + TrimStart(s);
      assert s == [s[0]] + s[1..];
    }
  }

  lemma {:induction false} TrimEndSide(s: string) returns (right: string)
    ensures Blank(right) && s == TrimEnd(s) + right
    ensures TrimEnd(s) == [] || !IsWhitespace(TrimEnd(s)[|TrimEnd(s)| - 1])
  {
    right := [];
    if s != [] && IsWhitespace(s[|s| - 1]) {
      var more := TrimEndSide(s[..|s| - 1]);
      right := more + [s[|s| - 1]];
      assert (TrimEnd(s) + more) + [s[|s| - 1]] == TrimEnd(s) + right;
      assert s == s[..|s| - 1] + [s[|s| - 1]];
    }
  }

  /** Trimming takes the white space off both sides, and nothing else. */
  lemma TrimSides(s: string) returns (left: string, right: string)
    ensures Blank(left) && Blank(right) && s == left + Trim(s) + right && Trimmed(Trim(s))
  {
    left := TrimStartSide(s);
    right := TrimEndSide(TrimStart(s));
    assert Trim(s) != [] ==> Trim(s)[0] == TrimStart(s)[0];
  }

  lemma TrimIsTrimmed(s: string)
    ensures Trimmed(Trim(s))
  {
    var _, _ := TrimSides(s);
  }

  lemma TrimHoldsNoMore(s: string, c: char)
    ensures c !in s ==> c !in Trim(s)
  {
    var left, right := TrimSides(s);
  }

  lemma TrimOfTrimmed(s: string)
    requires Trimmed(s)
    ensures Trim(s) == s
  {
  }

  lemma {:induction false} TrimStartAround(left: string, s: string)
    requires Blank(left) && (s == [] || !IsWhitespace(s[0]))
    ensures TrimStart(left + s) == s
  {
    if left == [] {
      assert left + s == s;
    } else {
      assert (left + s)[1..] == left[1..] + s;
      TrimStartAround(left[1..], s);
    }
  }

  lemma {:induction false} TrimEndAround(s: string, right: string)
    requires Blank(right) && (s == [] || !IsWhitespace(s[|s| - 1]))
    ensures TrimEnd(s + right) == s
  {
    if right == [] {
      assert s + right == s;
    } else {
      var n := |right| - 1;
      assert (s + right)[..|s| + n] == s + right[..n];
      TrimEndAround(s, right[..n]);
    }
  }

  /** White space around a trimmed text is all that trimming removes. */
  lemma TrimAround(left: string, s: string, right: string)
    requires Trimmed(s) && Blank(left) && Blank(right)
    ensures Trim(left + s + right) == s
  {
    if s == [] {
      assert left + s + right == (left + right) + [];
      TrimStartAround(left + right, []);
    } else {
      assert left + s + right == left + (s + right);
      TrimStartAround(left, s + right);
      TrimEndAround(s, right);
    }
  }
}
