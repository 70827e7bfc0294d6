/**
 Splitting a log into lines the way the standard library's `lines` does, and the bounded
 tail of `ccteam daemon logs` (crates/ccteam-cli/src/daemon_cli.rs).
 */
module Lines {
  import opened Octets
  import opened Text

  const NEWLINE: byte := 10
  const RETURN: byte := 13

  function StripReturn(s: Bytes): Bytes {
    if s != [] && s[|s| - 1] == RETURN then s[..|s| - 1] else s
  }

  /** A newline ends a line and takes a carriage return before it along; what follows the
      last newline is a line when it is not empty. */
  function LinesOf(s: Bytes): seq<Bytes> {
    FromPieces(Split(s, NEWLINE))
  }

  function FromPieces(pieces: seq<Bytes>): seq<Bytes>
    requires |pieces| > 0
  {
    var n := |pieces| - 1;
    Ended(pieces[..n]) + if pieces[n] == [] then [] else [pieces[n]]
  }

  function Ended(pieces: seq<Bytes>): (r: seq<Bytes>)
    ensures |r| == |pieces|
  {
    seq(|pieces|, i requires 0 <= i < |pieces| => StripReturn(pieces[i]))
  }

  predicate SuffixOf<T(==)>(a: seq<T>, b: seq<T>) {
    |a| <= |b| && a == b[|b| - |a|..]
  }

  // ---- What a line is

  /** A line of a text is what stands before a newline, without the carriage return there may be
      before that. */
  lemma FirstLine(line: Bytes, rest: Bytes)
    requires NEWLINE !in line && (line == [] || line[|line| - 1] != RETURN)
    ensures LinesOf(line + [10] + rest) == [line] + LinesOf(rest)
    ensures LinesOf(line + [13, 10] + rest) == [line] + LinesOf(rest)
  {
    FirstPiece(line, rest);
    FirstPiece(line + [RETURN], rest);
    assert line + [RETURN] + [NEWLINE] + rest == line + [13, 10] + rest;
    assert (line + [RETURN])[..|line|] == line;
  }

  lemma FirstPiece(piece: Bytes, rest: Bytes)
    requires NEWLINE !in piece
    ensures LinesOf(piece + [NEWLINE] + rest) == [StripReturn(piece)] + LinesOf(rest)
  {
    SplitAfterPiece(piece, rest, NEWLINE);
    var y := [piece] + Split(rest, NEWLINE);
    assert y[1..] == Split(rest, NEWLINE);
    FromRest(y);
  }

  /** After the last newline there is one more line if there is anything. */
  lemma LastLine(line: Bytes)
    requires NEWLINE !in line
    ensures LinesOf(line) == if line == [] then [] else [line]
  {
    SplitOfPiece(line, NEWLINE);
  }

  // ---- Lines of a text cut in two

  lemma LastPiece(s: Bytes)
    requires s != []
    ensures var p := Split(s, NEWLINE); p[|p| - 1] == [] <==> s[|s| - 1] == NEWLINE
  {
    var n := |s| - 1;
    assert s == s[..n] + [s[n]];
    SplitConcat(s[..n], [s[n]], NEWLINE);
    var none: Bytes := [];
    SplitOfPiece(none, NEWLINE);
    if s[n] == NEWLINE {
      SplitAfterPiece(none, none, NEWLINE);
      assert none + [NEWLINE] + none == [s[n]];
    } else {
      SplitOfPiece([s[n]], NEWLINE);
    }
  }

  lemma FromSeam(x: seq<Bytes>, y: seq<Bytes>)
    requires |x| > 0 && |y| > 1
    ensures FromPieces(Seam(x, y)) == Ended(x[..|x| - 1]) + [StripReturn(x[|x| - 1] + y[0])] + FromPieces(y[1..])
  {
    var z := Seam(x, y);
    assert z[..|z| - 1] == x[..|x| - 1] + [x[|x| - 1] + y[0]] + y[1..][..|y| - 2];
  }

  lemma FromRest(y: seq<Bytes>)
    requires |y| > 1
    ensures FromPieces(y) == [StripReturn(y[0])] + FromPieces(y[1..])
  {
    assert y[..|y| - 1] == [y[0]] + y[1..][..|y| - 2];
  }

  /** Cutting at a line end splits the lines; cutting inside a line makes two lines of one,
      so the parts have one line more between them than the whole. */
  lemma LinesConcat(a: Bytes, b: Bytes)
    requires a != [] && b != []
    ensures a[|a| - 1] == NEWLINE ==> LinesOf(a + b) == LinesOf(a) + LinesOf(b)
    ensures a[|a| - 1] != NEWLINE ==> |LinesOf(a + b)| + 1 == |LinesOf(a)| + |LinesOf(b)|
  {
    SplitConcat(a, b, NEWLINE);
    LastPiece(a);
    LastPiece(b);
    PiecesConcat(Split(a, NEWLINE), Split(b, NEWLINE));
  }

  lemma PiecesConcat(x: seq<Bytes>, y: seq<Bytes>)
    requires |x| > 0 && |y| > 0 && (|y| == 1 ==> y[0] != [])
    ensures x[|x| - 1] == [] ==> FromPieces(Seam(x, y)) == FromPieces(x) + FromPieces(y)
    ensures x[|x| - 1] != [] ==> |FromPieces(Seam(x, y))| + 1 == |FromPieces(x)| + |FromPieces(y)|
  {
    var last: Bytes := x[|x| - 1];
    assert last == [] ==> last + y[0] == y[0];
    if |y| > 1 {
      FromSeam(x, y);
      FromRest(y);
    } else {
      assert Seam(x, y)[..|x| - 1] == x[..|x| - 1];
    }
  }

  /** Printing two parts by their lines shows the lines of the whole exactly when the cut is
      at a line end (or a part is empty). */
  lemma CutAtLineEnd(a: Bytes, b: Bytes)
    ensures LinesOf(a) + LinesOf(b) == LinesOf(a + b) <==> a == [] || b == [] || a[|a| - 1] == NEWLINE
  {
    if a == [] {
      assert a + b == b && LinesOf(a) + LinesOf(b) == LinesOf(b);
    } else if b == [] {
      assert a + b == a && LinesOf(a) + LinesOf(b) == LinesOf(a);
    } else {
      LinesConcat(a, b);
    }
  }

  /** Dropping a byte prefix loses a prefix of the lines and damages at most the first of
      those that are left. */
  lemma LinesAfterCut(s: Bytes, i: nat)
    requires i <= |s|
    ensures LinesOf(s[i..]) != [] ==> SuffixOf(LinesOf(s[i..])[1..], LinesOf(s))
  {
    var x, y := Split(s[..i], NEWLINE), Split(s[i..], NEWLINE);
    assert s == s[..i] + s[i..];
    SplitConcat(s[..i], s[i..], NEWLINE);
    if |y| > 1 {
      FromSeam(x, y);
      FromRest(y);
    }
  }

  // ---- The tail

  const WINDOW: nat := 1024 * 1024

  /** What the window from `start` on shows in whole lines. */
  function WholeLines(content: Bytes, start: nat): seq<Bytes> {
    var lines := LinesOf(if start <= |content| then content[start..] else []);
    if start > 0 && lines != [] then lines[1..] else lines
  }

  function WindowStart(len: nat): nat {
    if len > WINDOW then len - WINDOW else 0
  }

  /** `len` is the length the file had when its metadata was read; `content` is what it holds
      when it is read from there on. */
  function TailLines(content: Bytes, len: nat, n: nat): seq<Bytes> {
    LastOf(WholeLines(content, WindowStart(len)), n)
  }

  function LastOf<T>(a: seq<T>, n: nat): seq<T> {
    a[if |a| > n then |a| - n else 0..]
  }

  lemma WholeLinesEndLog(content: Bytes, start: nat)
    requires start <= |content|
    ensures SuffixOf(WholeLines(content, start), LinesOf(content))
    ensures start == 0 ==> WholeLines(content, start) == LinesOf(content)
  {
    LinesAfterCut(content, start);
    assert start == 0 ==> content[start..] == content;
  }

  /** What the tail shows is always the end of the file's lines, never more than `n` of them
      and never a part of one; a file that fits the window shows exactly its last lines. */
  lemma TailIsEndOfLog(content: Bytes, len: nat, n: nat)
    requires len <= |content|
    ensures SuffixOf(TailLines(content, len, n), LinesOf(content))
    ensures |TailLines(content, len, n)| <= n
    ensures len <= 1_048_576 ==> |TailLines(content, len, n)| == Least(n, |LinesOf(content)|)
  {
    WholeLinesEndLog(content, WindowStart(len));
  }

  function Least(a: nat, b: nat): nat {
    if a <= b then a else b
  }

  /** A longer file shows, of the lines that reach into the window, the last `n` but never the
      first. */
  lemma TailShowsWindow(content: Bytes, n: nat)
    requires |content| > 1_048_576
    ensures var inWindow, tail := LinesOf(content[|content| - 1_048_576..]), TailLines(content, |content|, n);
            && inWindow != []
            && SuffixOf(tail, inWindow[1..]) && |tail| == Least(n, |inWindow| - 1)
  {
  }

  /** The line dropped is meant to be a partial one. It is a whole line of the log, then missing
      from the tail, exactly when the byte before the window ends a line. */
  lemma DroppedLineIsWholeIff(content: Bytes)
    requires |content| > WINDOW
    ensures var cut := |content| - WINDOW;
            var before, inWindow := LinesOf(content[..cut]), LinesOf(content[cut..]);
            && inWindow != []
            && (before + inWindow == LinesOf(content) <==> content[cut - 1] == NEWLINE)
            && |LinesOf(content)| == |before| + |inWindow[1..]| + if content[cut - 1] == NEWLINE then 1 else 0
  {
    var cut := |content| - WINDOW;
    assert content == content[..cut] + content[cut..];
    LinesConcat(content[..cut], content[cut..]);
    LastPiece(content[cut..]);
  }
}
