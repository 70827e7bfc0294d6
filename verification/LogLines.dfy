/**
 The follower prints line by line what each of its reads brings
 (`print_appended` in crates/ccteam-cli/src/daemon_cli.rs). When that shows the lines of the log.
 */
module LogLines {
  import opened Wrappers
  import opened Octets
  import opened Lines
  import opened LogFollow
  import opened LogLosses

  /** What one tick reads to print. */
  function Chunk(s: State): Bytes {
    var out := Tick(s).out;
    if |s.out| <= |out| then out[|s.out|..] else []
  }

  /** What one act prints. */
  function Prints(s: State, a: Act): seq<Bytes> {
    if a.Follower? then LinesOf(Chunk(s)) else []
  }

  /** The lines printed over a run, read by read. */
  function Shown(s: State, acts: seq<Act>): seq<Bytes>
    decreases |acts|
  {
    if acts == [] then [] else Prints(s, acts[0]) + Shown(Do(s, acts[0]), acts[1..])
  }

  // ---- The lines of the log, file by file

  /** The lines of the first `n` files up to the marks in `ends`. */
  function FileLines(files: seq<Bytes>, first: nat, from: nat, ends: seq<nat>, n: nat): seq<Bytes> {
    if n == 0 || n > |ends| then []
    else
      FileLines(files, first, from, ends, n - 1)
      + LinesOf(Part(files, first + n - 1, Low(from, n), ends[n - 1]))
  }

  /** Where the `n`th file is shown from. */
  function Low(from: nat, n: nat): nat {
    if n == 1 then from else 0
  }

  function LinesRead(s: State): seq<Bytes> {
    FileLines(s.log.files, s.first, s.from, s.ends, |s.ends|)
  }

  function Sizes(s: State): seq<nat>
    requires s.first <= |s.log.files|
  {
    seq(|s.log.files| - s.first, i requires 0 <= i < |s.log.files| - s.first => |s.log.files[s.first + i]|)
  }

  /** All the lines there are, from where the follower started. */
  function AllLines(s: State): seq<Bytes>
    requires s.first <= |s.log.files|
  {
    FileLines(s.log.files, s.first, s.from, Sizes(s), |Sizes(s)|)
  }

  lemma NoLines()
    ensures LinesOf([]) == []
  {
  }

  lemma {:induction false} FileLinesGrow(
    files: seq<Bytes>, grown: seq<Bytes>, first: nat, from: nat, ends: seq<nat>, n: nat)
    requires Marks(files, first, from, ends) && |files| <= |grown| && n <= |ends|
    requires forall i :: 0 <= i < |files| ==> files[i] <= grown[i]
    ensures FileLines(grown, first, from, ends, n) == FileLines(files, first, from, ends, n)
  {
    hide LinesOf;
    if n > 0 {
      assert ends[n - 1] <= |files[first + n - 1]|;
      PartGrows(files, grown, first + n - 1, Low(from, n), ends[n - 1]);
      FileLinesGrow(files, grown, first, from, ends, n - 1);
    }
  }

  lemma {:induction false} FileLinesSame(files: seq<Bytes>, first: nat, from: nat, ends: seq<nat>, e: seq<nat>, n: nat)
    requires n <= |ends| && n <= |e| && forall i :: 0 <= i < n ==> ends[i] == e[i]
    ensures FileLines(files, first, from, ends, n) == FileLines(files, first, from, e, n)
  {
    hide LinesOf;
    if n > 0 { FileLinesSame(files, first, from, ends, e, n - 1); }
  }

  lemma {:induction false} FileLinesSkip(files: seq<Bytes>, first: nat, from: nat, ends: seq<nat>, k: nat)
    requires ends != []
    ensures FileLines(files, first, from, ends + seq(k, _ => 0), |ends| + k)
            == FileLines(files, first, from, ends, |ends|)
  {
    hide LinesOf;
    var e := ends + seq(k, _ => 0);
    if k == 0 {
      assert e == ends;
    } else {
      NoLines();
      FileLinesSame(files, first, from, e, ends + seq(k - 1, _ => 0), |ends| + k - 1);
      FileLinesSkip(files, first, from, ends, k - 1);
    }
  }

  /** A read in file text `file` from `o` on, its lines shown from `low` on so far, starts inside a
      line. */
  predicate Inside(file: Bytes, low: nat, o: nat) {
    low < o < |file| && file[o - 1] != NEWLINE
  }

  lemma LinesTwice(file: Bytes, low: nat, o: nat)
    requires low <= o <= |file|
    ensures var x, y, whole := LinesOf(file[low..o]), LinesOf(file[o..]), LinesOf(file[low..]);
            if Inside(file, low, o) then |whole| + 1 == |x| + |y| else whole == x + y
  {
    var a, b := file[low..o], file[o..];
    assert file[low..] == a + b;
    CutAtLineEnd(a, b);
    if a != [] && b != [] {
      assert a[|a| - 1] == file[o - 1];
      LinesConcat(a, b);
    }
  }

  /** Reading on to the end of the last file. */
  lemma ReadLines(files: seq<Bytes>, first: nat, from: nat, ends: seq<nat>)
    requires Marks(files, first, from, ends)
    ensures var n := |ends|;
            var file, o := files[first + n - 1], ends[n - 1];
            var was, now := FileLines(files, first, from, ends, n),
                            FileLines(files, first, from, ends[..n - 1] + [|file|], n);
            if Inside(file, Low(from, n), o) then |now| + 1 == |was| + |LinesOf(file[o..])|
            else now == was + LinesOf(file[o..])
  {
    hide LinesOf;
    var n := |ends|;
    var file, o, low := files[first + n - 1], ends[n - 1], Low(from, n);
    assert o <= |file|;
    FileLinesSame(files, first, from, ends, ends[..n - 1] + [|file|], n - 1);
    LinesTwice(file, low, o);
    assert Part(files, first + n - 1, low, o) == file[low..o];
    assert Part(files, first + n - 1, low, |file|) == file[low..];
    var before, x, y := FileLines(files, first, from, ends, n - 1), LinesOf(file[low..o]), LinesOf(file[o..]);
    assert before + (x + y) == before + x + y;
  }

  // ---- Runs

  /** The tick reads something, and starts inside a line it has shown the beginning of. */
  predicate StartsInside(s: State) {
    Chunk(s) != [] && Inside(FileAt(s.log, s.held), Low(s.from, |s.ends|), s.offset)
  }

  predicate Cuts(s: State, a: Act) {
    a.Follower? && StartsInside(s)
  }

  predicate CutsLine(s: State, acts: seq<Act>)
    decreases |acts|
  {
    acts != [] && (Cuts(s, acts[0]) || CutsLine(Do(s, acts[0]), acts[1..]))
  }

  lemma OtherKeepsLines(s: State, e: Event)
    requires Valid(s)
    ensures LinesRead(Do(s, Other(e))) == LinesRead(s)
  {
    hide LinesOf;
    FileLinesGrow(s.log.files, Happen(s.log, e).files, s.first, s.from, s.ends, |s.ends|);
  }

  lemma TickReads(s: State)
    requires Valid(s) && (s.pc.Statted? || s.pc.Reopened?)
    ensures var t, n, file := Tick(s), |s.ends| - 1, FileAt(s.log, s.held);
            && t.log == s.log && t.first == s.first && t.from == s.from
            && (if Chunk(s) == [] then t.ends == s.ends
                else Chunk(s) == file[s.offset..] && t.ends == s.ends[..n] + [|file|])
  {
    PrintedToEnd(s);
    assert s.ends == s.ends[..|s.ends| - 1] + [s.ends[|s.ends| - 1]];
  }

  lemma ReadingLines(s: State)
    requires Valid(s) && (s.pc.Statted? || s.pc.Reopened?)
    ensures var t, lines := Tick(s), LinesOf(Chunk(s));
            if StartsInside(s) then |LinesRead(t)| + 1 == |LinesRead(s)| + |lines|
            else LinesRead(t) == LinesRead(s) + lines
  {
    hide LinesOf;
    NoLines();
    TickReads(s);
    if Chunk(s) != [] {
      ReadLines(s.log.files, s.first, s.from, s.ends);
      assert s.held == s.first + |s.ends| - 1 && s.offset == s.ends[|s.ends| - 1];
      assert |Tick(s).ends| == |s.ends|;
    }
  }

  lemma OtherTicksReadNothing(s: State)
    requires Valid(s) && !s.pc.Statted? && !s.pc.Reopened?
    ensures Chunk(s) == [] && LinesRead(Tick(s)) == LinesRead(s)
  {
    hide LinesOf;
    if s.pc.Drained? && s.log.path.Some? {
      FileLinesSkip(s.log.files, s.first, s.from, s.ends, s.log.path.value - s.held);
    }
  }

  lemma ActLines(s: State, a: Act)
    requires Valid(s)
    ensures var was, now, lines := LinesRead(s), LinesRead(Do(s, a)), Prints(s, a);
            if Cuts(s, a) then |now| + 1 == |was| + |lines| else now == was + lines
  {
    hide LinesOf, LinesRead, Chunk;
    assert LinesRead(s) + [] == LinesRead(s);
    if a.Other? {
      OtherKeepsLines(s, a.e);
    } else if s.pc.Statted? || s.pc.Reopened? {
      ReadingLines(s);
    } else {
      NoLines();
      OtherTicksReadNothing(s);
    }
  }

  lemma {:induction false} ShownIs(s: State, acts: seq<Act>)
    requires Valid(s)
    ensures var was, now, shown := LinesRead(s), LinesRead(Run(s, acts)), Shown(s, acts);
            if CutsLine(s, acts) then |now| < |was| + |shown| else now == was + shown
    decreases |acts|
  {
    hide LinesRead, Prints, Cuts, Do;
    if acts != [] {
      var next := Do(s, acts[0]);
      StepKeepsValid(s, acts[0]);
      ShownIs(next, acts[1..]);
      ActLines(s, acts[0]);
      var x, y := Prints(s, acts[0]), Shown(next, acts[1..]);
      assert LinesRead(s) + (x + y) == LinesRead(s) + x + y;
    }
  }

  /** Main result on lines: in every run the lines printed are the lines of what was read, file by
      file, if and only if no read started inside a line. */
  lemma ShownIff(log: Log, held: nat, offset: nat, acts: seq<Act>)
    requires CanStart(log, held, offset)
    ensures var s := Start(log, held, offset);
            Shown(s, acts) == LinesRead(Run(s, acts)) <==> !CutsLine(s, acts)
  {
    var s := Start(log, held, offset);
    hide LinesOf;
    NoLines();
    assert Part(log.files, held, offset, offset) == [];
    assert FileLines(log.files, held, offset, [offset], 0) == [];
    ShownIs(s, acts);
  }

  lemma AllRead(s: State)
    requires Valid(s) && s.out == Whole(s)
    ensures LinesRead(s) == AllLines(s)
  {
    hide LinesOf;
    var k := |s.log.files| - 1 - s.held;
    ReadToEnds(s);
    FileLinesSkip(s.log.files, s.first, s.from, s.ends, k);
  }

  lemma ReadToEnds(s: State)
    requires Valid(s) && s.out == Whole(s)
    ensures s.ends + seq(|s.log.files| - 1 - s.held, _ => 0) == Sizes(s)
  {
    WholeShownIff(s);
    MarksAtEnds(s, s.ends + seq(|s.log.files| - 1 - s.held, _ => 0));
  }

  /** So a run that printed the whole log printed exactly its lines if and only if every read ended
      at a line end or was the last of its file. */
  lemma LogShownByLinesIff(log: Log, held: nat, offset: nat, acts: seq<Act>)
    requires CanStart(log, held, offset)
    ensures var s := Start(log, held, offset);
            var t := Run(s, acts);
            Valid(t) && (t.out == Whole(t) ==> (Shown(s, acts) == AllLines(t) <==> !CutsLine(s, acts)))
  {
    var s := Start(log, held, offset);
    StartIsValid(log, held, offset);
    RunKeepsValid(s, acts);
    ShownIff(log, held, offset, acts);
    if Run(s, acts).out == Whole(Run(s, acts)) { AllRead(Run(s, acts)); }
  }

  // ---- A line in two writes

  const HALVES: seq<Act> := [
    Other(Append(0, [65])), Follower, Follower, Other(Append(0, [66, 10])), Follower, Follower]

  /** After the first half was shown, and after the second. */
  const HALF: State := State(Log([[65]], Some(0)), 0, 1, Polling, [65], 0, 0, [1])
  const LINE: State := State(Log([[65, 66, 10]], Some(0)), 0, 3, Polling, [65, 66, 10], 0, 0, [3])

  lemma CutsStep(s: State, acts: seq<Act>, n: nat)
    requires n < |acts|
    ensures Run(s, acts[n..]) == Run(Do(s, acts[n]), acts[n + 1..])
    ensures CutsLine(s, acts[n..]) <==> Cuts(s, acts[n]) || CutsLine(Do(s, acts[n]), acts[n + 1..])
  {
    assert acts[n..][1..] == acts[n + 1..];
  }

  lemma FirstHalf()
    ensures Run(BEFORE, HALVES) == Run(HALF, HALVES[3..])
    ensures CutsLine(HALF, HALVES[3..]) ==> CutsLine(BEFORE, HALVES)
  {
    hide LinesOf, Cuts;
    var a, none: Bytes := HALVES, [];
    assert a[0..] == a && none + [65] == [65];
    CutsStep(BEFORE, a, 0);
    var s1 := BEFORE.(log := Log([[65]], Some(0)));
    assert Do(BEFORE, a[0]) == s1;
    CutsStep(s1, a, 1);
    var s2 := s1.(pc := Statted(0, 1));
    CutsStep(s2, a, 2);
    assert Tick(s2) == HALF;
  }

  lemma SecondHalf()
    ensures Run(HALF, HALVES[3..]) == LINE && CutsLine(HALF, HALVES[3..])
  {
    hide LinesOf;
    var a, half: Bytes := HALVES, [65];
    assert half + [66, 10] == [65, 66, 10];
    CutsStep(HALF, a, 3);
    var s4 := HALF.(log := Log([[65, 66, 10]], Some(0)));
    assert Do(HALF, a[3]) == s4;
    CutsStep(s4, a, 4);
    var s5 := s4.(pc := Statted(0, 3));
    CutsStep(s5, a, 5);
    assert s4.log.files[0][1..] == [66, 10];
    assert Tick(s5) == LINE;
    assert a[6..] == [];
    assert Chunk(s5) == [66, 10];
  }

  lemma LineIsRead()
    requires Valid(LINE)
    ensures LINE.out == Whole(LINE)
  {
    WholeShownIff(LINE);
  }

  /** A line that is written in two parts with a look in between is shown as two. */
  lemma LineShownAsTwo()
    ensures CanStart(Log([[]], Some(0)), 0, 0)
    ensures var s := Start(Log([[]], Some(0)), 0, 0);
            var t := Run(s, HALVES);
            Valid(t) && t.out == Whole(t) && Shown(s, HALVES) != AllLines(t)
  {
    hide LinesOf, Cuts, Do, Shown, AllLines, CutsLine;
    FirstHalf();
    SecondHalf();
    LogShownByLinesIff(Log([[]], Some(0)), 0, 0, HALVES);
    LineIsRead();
  }
}
