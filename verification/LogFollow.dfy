/**
 The follow loop of `ccteam daemon logs --follow` (crates/ccteam-cli/src/daemon_cli.rs)
 racing the daemons that write and rotate the log.

 Files are numbered in the order they appear at the log path and only grow. The follower
 takes one system call per tick; between any two ticks anything may happen to the log.
 */
module LogFollow {
  import opened Wrappers
  import opened Octets

  /** `path` is the file the log path names, if any. */
  datatype Log = Log(files: seq<Bytes>, path: Option<nat>)

  datatype Event =
    | Append(file: nat, bytes: Bytes)
    | RotateAway
    | CreateNew

  function Happen(log: Log, e: Event): Log {
    match e
    case Append(f, bytes) =>
      if f < |log.files| then log.(files := log.files[f := log.files[f] + bytes]) else log
    case RotateAway => log.(path := None)
    case CreateNew =>
      if log.path.Some? then log else Log(log.files + [[]], Some(|log.files|))
  }

  /** Where the loop is: about to stat the path, having seen file `seen` with `len` bytes
      there, having drained the old file, having reopened the path, or ended by an error. */
  datatype Pc =
    | Polling
    | Statted(seen: nat, len: nat)
    | Drained(len: nat)
    | Reopened(len: nat)
    | Failed

  /** `held` and `offset` are the loop's `file` and `offset`; `out` is what it has printed.
      `first`, `from` and `ends` record where it started and, for every file from the first
      one on, how far it has been printed. */
  datatype State = State(
    log: Log, held: nat, offset: nat, pc: Pc, out: Bytes,
    first: nat, from: nat, ends: seq<nat>)

  function FileAt(log: Log, f: nat): Bytes {
    if f < |log.files| then log.files[f] else []
  }

  function WithLast(ends: seq<nat>, end: nat): seq<nat> {
    if ends == [] then [] else ends[..|ends| - 1] + [end]
  }

  /** `print_appended`: everything past the offset. */
  function PrintAppended(s: State): State {
    var file := FileAt(s.log, s.held);
    var bytes := if s.offset <= |file| then file[s.offset..] else [];
    s.(out := s.out + bytes, offset := s.offset + |bytes|, ends := WithLast(s.ends, s.offset + |bytes|))
  }

  /** The next system call of the loop. */
  function Tick(s: State): State {
    match s.pc
    case Polling =>
      if s.log.path.None? then s
      else s.(pc := Statted(s.log.path.value, |FileAt(s.log, s.log.path.value)|))
    case Statted(seen, len) =>
      if seen != s.held then PrintAppended(s).(pc := Drained(len), offset := s.offset)
      else
        var s := if len < s.offset then s.(offset := 0) else s;
        (if len > s.offset then PrintAppended(s) else s).(pc := Polling)
    case Drained(len) =>
      if s.log.path.None? then s.(pc := Failed)
      else
        var next := s.log.path.value;
        var skipped := if next > s.held then next - s.held else 0;
        s.(held := next, offset := 0, pc := Reopened(len), ends := s.ends + seq(skipped, _ => 0))
    case Reopened(len) =>
      (if len > s.offset then PrintAppended(s) else s).(pc := Polling)
    case Failed => s
  }

  datatype Act = Other(e: Event) | Follower

  function Do(s: State, a: Act): State {
    match a
    case Other(e) => s.(log := Happen(s.log, e))
    case Follower => Tick(s)
  }

  // ---- What holds in every run

  ghost predicate Valid(s: State) {
    var files := s.log.files;
    && s.held < |files| && s.first <= s.held && |s.ends| == s.held - s.first + 1
    && (s.log.path.Some? ==> s.log.path.value == |files| - 1)
    && (forall i :: 0 <= i < |s.ends| ==> s.ends[i] <= |files[s.first + i]|)
    && s.from <= s.ends[0]
    && (s.pc.Statted? ==>
          s.held <= s.pc.seen < |files| && (s.pc.seen == s.held ==> s.offset <= s.pc.len <= |files[s.held]|))
    && (s.pc.Drained? ==> s.held < |files| - 1)
    && (s.pc.Reopened? ==> s.offset == 0)
    && (!s.pc.Drained? && !s.pc.Failed? ==> s.offset == s.ends[|s.ends| - 1])
    && s.out == Consumed(files, s.first, s.from, s.ends, |s.ends|)
  }

  function Part(files: seq<Bytes>, g: nat, lo: nat, hi: nat): Bytes {
    if g < |files| && lo <= hi <= |files[g]| then files[g][lo..hi] else []
  }

  /** The parts of the first `n` files before the marks in `ends`, put together in order. */
  function Consumed(files: seq<Bytes>, first: nat, from: nat, ends: seq<nat>, n: nat): Bytes {
    if n == 0 || n > |ends| then []
    else if n == 1 then Part(files, first, from, ends[0])
    else Consumed(files, first, from, ends, n - 1) + Part(files, first + n - 1, 0, ends[n - 1])
  }

  ghost predicate Marks(files: seq<Bytes>, first: nat, from: nat, ends: seq<nat>) {
    && ends != [] && first + |ends| <= |files| && from <= ends[0]
    && forall i :: 0 <= i < |ends| ==> ends[i] <= |files[first + i]|
  }

  lemma {:induction false} ConsumedGrows(
    files: seq<Bytes>, grown: seq<Bytes>, first: nat, from: nat, ends: seq<nat>, n: nat)
    requires Marks(files, first, from, ends) && |files| <= |grown| && n <= |ends|
    requires forall i :: 0 <= i < |files| ==> files[i] <= grown[i]
    ensures Consumed(grown, first, from, ends, n) == Consumed(files, first, from, ends, n)
  {
    if n > 0 {
      assert ends[n - 1] <= |files[first + n - 1]|;
      PartGrows(files, grown, first + n - 1, if n == 1 then from else 0, ends[n - 1]);
      ConsumedGrows(files, grown, first, from, ends, n - 1);
    }
  }

  lemma PartGrows(files: seq<Bytes>, grown: seq<Bytes>, g: nat, lo: nat, hi: nat)
    requires g < |files| <= |grown| && files[g] <= grown[g] && hi <= |files[g]|
    ensures Part(grown, g, lo, hi) == Part(files, g, lo, hi)
  {
    assert files[g] == grown[g][..|files[g]|];
  }

  lemma {:induction false} ConsumedSame(files: seq<Bytes>, first: nat, from: nat, ends: seq<nat>, e: seq<nat>, n: nat)
    requires n <= |ends| && n <= |e| && forall i :: 0 <= i < n ==> ends[i] == e[i]
    ensures Consumed(files, first, from, ends, n) == Consumed(files, first, from, e, n)
  {
    if n > 1 { ConsumedSame(files, first, from, ends, e, n - 1); }
  }

  lemma {:induction false} ConsumedSkips(files: seq<Bytes>, first: nat, from: nat, ends: seq<nat>, k: nat)
    requires ends != []
    ensures Consumed(files, first, from, ends + seq(k, _ => 0), |ends| + k)
            == Consumed(files, first, from, ends, |ends|)
  {
    var e := ends + seq(k, _ => 0);
    if k == 0 {
      assert e == ends;
    } else {
      var e' := ends + seq(k - 1, _ => 0);
      ConsumedSame(files, first, from, e, e', |ends| + k - 1);
      ConsumedSkips(files, first, from, ends, k - 1);
    }
  }

  lemma PartToEnd(files: seq<Bytes>, g: nat, lo: nat, hi: nat)
    requires g < |files| && lo <= hi <= |files[g]|
    ensures Part(files, g, lo, |files[g]|) == Part(files, g, lo, hi) + files[g][hi..]
  {
  }

  /** Moving the last mark to the end of its file consumes what was left of it. */
  lemma ConsumedReads(files: seq<Bytes>, first: nat, from: nat, ends: seq<nat>)
    requires Marks(files, first, from, ends)
    ensures var n := |ends|;
            var file := files[first + n - 1];
            && Marks(files, first, from, WithLast(ends, |file|))
            && Consumed(files, first, from, WithLast(ends, |file|), n)
               == Consumed(files, first, from, ends, n) + file[ends[n - 1]..]
  {
    var n := |ends|;
    var file := files[first + n - 1];
    assert ends[n - 1] <= |file|;
    if n == 1 {
      PartToEnd(files, first, from, ends[0]);
    } else {
      PartToEnd(files, first + n - 1, 0, ends[n - 1]);
      ConsumedSame(files, first, from, ends, WithLast(ends, |file|), n - 1);
      var x, y, z := Consumed(files, first, from, ends, n - 1), file[..ends[n - 1]], file[ends[n - 1]..];
      assert x + (y + z) == x + y + z;
    }
  }

  lemma OtherKeepsValid(s: State, e: Event)
    requires Valid(s)
    ensures Valid(Do(s, Other(e)))
  {
    ConsumedGrows(s.log.files, Happen(s.log, e).files, s.first, s.from, s.ends, |s.ends|);
  }

  lemma PrintedToEnd(s: State)
    requires Valid(s) && s.offset == s.ends[|s.ends| - 1]
    ensures var n, file, t := |s.ends| - 1, FileAt(s.log, s.held), PrintAppended(s);
            && t == s.(out := t.out, offset := |file|, ends := s.ends[..n] + [|file|])
            && Marks(s.log.files, s.first, s.from, t.ends)
            && t.out == Consumed(s.log.files, s.first, s.from, t.ends, |t.ends|)
  {
    var n, file := |s.ends| - 1, s.log.files[s.held];
    assert s.first + n == s.held && s.ends[n] <= |file|;
    assert s.offset + |file[s.offset..]| == |file|;
    ConsumedReads(s.log.files, s.first, s.from, s.ends);
  }

  lemma PollingKeepsValid(s: State)
    requires Valid(s) && s.pc.Polling?
    ensures Valid(Tick(s))
  {
  }

  lemma DrainingKeepsValid(s: State)
    requires Valid(s) && s.pc.Statted? && s.pc.seen != s.held
    ensures Valid(Tick(s))
  {
    PrintedToEnd(s);
  }

  lemma StattedKeepsValid(s: State)
    requires Valid(s) && s.pc.Statted?
    ensures Valid(Tick(s))
  {
    if s.pc.seen != s.held {
      DrainingKeepsValid(s);
    } else {
      PrintedToEnd(s);
    }
  }

  lemma DrainedKeepsValid(s: State)
    requires Valid(s) && s.pc.Drained?
    ensures Valid(Tick(s))
  {
    if s.log.path.Some? {
      ConsumedSkips(s.log.files, s.first, s.from, s.ends, s.log.path.value - s.held);
    }
  }

  lemma ReopenedKeepsValid(s: State)
    requires Valid(s) && s.pc.Reopened?
    ensures Valid(Tick(s))
  {
    PrintedToEnd(s);
  }

  lemma TickKeepsValid(s: State)
    requires Valid(s)
    ensures Valid(Tick(s))
  {
    match s.pc
    case Polling => PollingKeepsValid(s);
    case Statted(_, _) => StattedKeepsValid(s);
    case Drained(_) => DrainedKeepsValid(s);
    case Reopened(_) => ReopenedKeepsValid(s);
    case Failed =>
  }

  /** Every act keeps the invariant, so the truncation branch is never taken and everything
      printed so far is, file after file, one stretch from the file's start. */
  lemma StepKeepsValid(s: State, a: Act)
    requires Valid(s)
    ensures Valid(Do(s, a))
  {
    match a
    case Other(e) => OtherKeepsValid(s, e);
    case Follower => TickKeepsValid(s);
  }

  function Run(s: State, acts: seq<Act>): State
    decreases |acts|
  {
    if acts == [] then s else Run(Do(s, acts[0]), acts[1..])
  }

  lemma {:induction false} RunKeepsValid(s: State, acts: seq<Act>)
    requires Valid(s)
    ensures Valid(Run(s, acts))
    ensures Run(s, acts).first == s.first && Run(s, acts).from == s.from
    decreases |acts|
  {
    if acts != [] {
      StepKeepsValid(s, acts[0]);
      RunKeepsValid(Do(s, acts[0]), acts[1..]);
    }
  }

  lemma {:induction false} RunConcat(s: State, a: seq<Act>, b: seq<Act>)
    ensures Run(s, a + b) == Run(Run(s, a), b)
    decreases |a|
  {
    if a == [] {
      assert a + b == b;
    } else {
      assert (a + b)[1..] == a[1..] + b;
      RunConcat(Do(s, a[0]), a[1..], b);
    }
  }

  /** The follower has opened file `held`, whose length it took to be `offset`. */
  function Start(log: Log, held: nat, offset: nat): State {
    State(log, held, offset, Polling, [], held, offset, [offset])
  }

  ghost predicate CanStart(log: Log, held: nat, offset: nat) {
    && held < |log.files| && offset <= |log.files[held]|
    && (log.path.Some? ==> log.path.value == |log.files| - 1)
  }

  lemma StartIsValid(log: Log, held: nat, offset: nat)
    requires CanStart(log, held, offset)
    ensures Valid(Start(log, held, offset))
  {
  }

  // ---- Exactly once

  /** The log as it should be shown up to `offset` in file `g`: the first file from where the
      follower started, then every later file from its top. */
  function Upto(files: seq<Bytes>, first: nat, from: nat, g: nat, offset: nat): Bytes
    requires first <= g < |files| && from <= |files[first]|
    requires offset <= |files[g]| && (g == first ==> from <= offset)
    decreases g
  {
    if g == first then files[g][from..offset]
    else Upto(files, first, from, g - 1, |files[g - 1]|) + files[g][..offset]
  }

  ghost predicate ExactlyOnce(s: State)
    requires Valid(s)
  {
    s.out == Upto(s.log.files, s.first, s.from, s.held, s.ends[|s.ends| - 1])
  }

  /** Every file that was left behind had been read to its end. */
  ghost predicate NothingLeftBehind(s: State)
    requires Valid(s)
  {
    forall i :: 0 <= i < |s.ends| - 1 ==> s.ends[i] == |s.log.files[s.first + i]|
  }

  lemma {:induction false} ConsumedVersusWhole(files: seq<Bytes>, first: nat, from: nat, ends: seq<nat>, n: nat)
    requires Marks(files, first, from, ends) && 0 < n <= |ends|
    ensures var whole := Upto(files, first, from, first + n - 1, ends[n - 1]);
            var consumed := Consumed(files, first, from, ends, n);
            && |consumed| <= |whole|
            && ((forall i :: 0 <= i < n - 1 ==> ends[i] == |files[first + i]|) ==> consumed == whole)
            && (|consumed| == |whole| ==> forall i :: 0 <= i < n - 1 ==> ends[i] == |files[first + i]|)
  {
    if n > 1 {
      ConsumedVersusWhole(files, first, from, ends, n - 1);
      WholeGrows(files, first, from, first + n - 2, ends[n - 2]);
    }
  }

  lemma WholeGrows(files: seq<Bytes>, first: nat, from: nat, g: nat, offset: nat)
    requires first <= g < |files| && from <= |files[first]|
    requires offset <= |files[g]| && (g == first ==> from <= offset)
    ensures |Upto(files, first, from, g, |files[g]|)| == |Upto(files, first, from, g, offset)| + |files[g]| - offset
  {
  }

  /** In every run whatsoever: what has been printed is the log exactly once if and only if
      no file was left behind with bytes that had not been read. */
  lemma ExactlyOnceIff(s: State, acts: seq<Act>)
    requires Valid(s)
    ensures Valid(Run(s, acts)) && (ExactlyOnce(Run(s, acts)) <==> NothingLeftBehind(Run(s, acts)))
  {
    RunKeepsValid(s, acts);
    var t := Run(s, acts);
    ConsumedVersusWhole(t.log.files, t.first, t.from, t.ends, |t.ends|);
  }

  // ---- Well-behaved surroundings

  /** Only the file at the path is written to, and when the follower reopens the path it
      finds the file that came right after the one it holds. */
  predicate Proper(s: State, a: Act) {
    match a
    case Other(Append(f, _)) => s.log.path == Some(f)
    case Other(_) => true
    case Follower => s.pc.Drained? ==> s.log.path == Some(s.held + 1)
  }

  predicate ProperRun(s: State, acts: seq<Act>)
    decreases |acts|
  {
    acts == [] || (Proper(s, acts[0]) && ProperRun(Do(s, acts[0]), acts[1..]))
  }

  /** Also at the point where the old file has been drained for the last time. */
  ghost predicate Complete(s: State)
    requires Valid(s)
  {
    NothingLeftBehind(s) && (s.pc.Drained? ==> s.ends[|s.ends| - 1] == |s.log.files[s.held]|)
  }

  lemma OtherKeepsComplete(s: State, e: Event)
    requires Valid(s) && Complete(s) && Proper(s, Other(e))
    ensures Valid(Do(s, Other(e))) && Complete(Do(s, Other(e)))
  {
    OtherKeepsValid(s, e);
  }

  lemma PrintKeepsLeftBehind(s: State, t: State)
    requires Valid(s) && Valid(t) && NothingLeftBehind(s)
    requires t.log == s.log && t.held == s.held && t.first == s.first && t.from == s.from
    requires t.ends == s.ends || t.ends == PrintAppended(s).ends
    ensures NothingLeftBehind(t)
  {
    forall i | 0 <= i < |t.ends| - 1 ensures t.ends[i] == |t.log.files[t.first + i]| {
      assert t.ends[i] == s.ends[i];
    }
  }

  lemma TickKeepsComplete(s: State)
    requires Valid(s) && Complete(s) && Proper(s, Follower)
    ensures Valid(Tick(s)) && Complete(Tick(s))
  {
    TickKeepsValid(s);
    if s.pc.Drained? {
      ReopenKeepsComplete(s);
    } else {
      PrintKeepsLeftBehind(s, Tick(s));
      if s.pc.Statted? && s.pc.seen != s.held { DrainReachesEnd(s); }
    }
  }

  lemma DrainReachesEnd(s: State)
    requires Valid(s) && s.pc.Statted? && s.pc.seen != s.held
    ensures var t := Tick(s); t.ends != [] && t.ends[|t.ends| - 1] == |s.log.files[s.held]|
  {
    PrintedToEnd(s);
  }

  lemma ReopenKeepsComplete(s: State)
    requires Valid(s) && Complete(s) && Proper(s, Follower) && s.pc.Drained? && Valid(Tick(s))
    ensures Complete(Tick(s))
  {
    var t := Tick(s);
    assert t.ends == s.ends + seq(1, _ => 0);
    forall i | 0 <= i < |t.ends| - 1 ensures t.ends[i] == |t.log.files[t.first + i]| {
      assert t.ends[i] == s.ends[i];
    }
  }

  lemma {:induction false} ProperRunIsComplete(s: State, acts: seq<Act>)
    requires Valid(s) && Complete(s) && ProperRun(s, acts)
    ensures Valid(Run(s, acts)) && Complete(Run(s, acts))
    decreases |acts|
  {
    if acts != [] {
      if acts[0].Follower? { TickKeepsComplete(s); } else { OtherKeepsComplete(s, acts[0].e); }
      ProperRunIsComplete(Do(s, acts[0]), acts[1..]);
    }
  }

  /** In every interleaving with well-behaved surroundings each byte after the starting point
      is printed exactly once, in order, across any number of rotations. */
  lemma FollowsExactlyOnce(log: Log, held: nat, offset: nat, acts: seq<Act>)
    requires CanStart(log, held, offset)
    requires ProperRun(Start(log, held, offset), acts)
    ensures var t := Run(Start(log, held, offset), acts); Valid(t) && ExactlyOnce(t)
  {
    var s := Start(log, held, offset);
    ProperRunIsComplete(s, acts);
    ExactlyOnceIff(s, acts);
  }

  ghost predicate AtEndOfLog(s: State) {
    && Valid(s) && s.pc.Polling? && s.log.path == Some(s.held) && s.offset == |FileAt(s.log, s.held)|
  }

  /** Left alone, one round of the loop brings the follower to the end of the file at the
      path, whether it was rotated since the last round or not. */
  lemma CatchesUp(s: State)
    requires Valid(s) && s.pc.Polling? && s.log.path.Some?
    ensures if s.held == s.log.path.value then AtEndOfLog(Tick(Tick(s))) else AtEndOfLog(Tick(Tick(Tick(Tick(s)))))
  {
    var t := Tick(s);
    PollingKeepsValid(s);
    StattedKeepsValid(t);
    PrintedToEnd(t);
    if s.held != s.log.path.value {
      CatchesUpAfterDrain(Tick(t));
    }
  }

  lemma CatchesUpAfterDrain(s: State)
    requires Valid(s) && s.pc.Drained? && s.log.path.Some? && s.pc.len == |FileAt(s.log, s.log.path.value)|
    ensures AtEndOfLog(Tick(Tick(s)))
  {
    DrainedKeepsValid(s);
    ReopenedKeepsValid(Tick(s));
    PrintedToEnd(Tick(s));
  }

  // ---- What a second rotation costs

  /** Reopening the path loses nothing exactly when every file that came and went in between
      is empty. */
  lemma ReopeningSkips(s: State)
    requires Valid(s) && Complete(s) && s.pc.Drained? && s.log.path.Some?
    ensures Valid(Tick(s))
    ensures ExactlyOnce(Tick(s)) <==>
            forall g :: s.held < g < s.log.path.value ==> s.log.files[g] == []
  {
    var t := Tick(s);
    TickKeepsValid(s);
    assert Run(t, []) == t;
    ExactlyOnceIff(t, []);
    var n := s.held - s.first;
    forall i | 0 <= i < |t.ends| - 1
      ensures t.ends[i] == |t.log.files[s.first + i]| <==> i <= n || s.log.files[s.first + i] == []
    {
    }
    if NothingLeftBehind(t) {
      forall g | s.held < g < s.log.path.value ensures s.log.files[g] == [] {
        assert t.ends[g - s.first] == |t.log.files[s.first + (g - s.first)]|;
      }
    }
  }

  lemma RunStep(s: State, acts: seq<Act>, n: nat)
    requires n < |acts|
    ensures Run(s, acts[n..]) == Run(Do(s, acts[n]), acts[n + 1..])
  {
    assert acts[n..][1..] == acts[n + 1..];
  }

  const TWO_ROTATIONS: seq<Act> := [
    Other(RotateAway), Other(CreateNew), Other(Append(1, [65])), Other(RotateAway), Other(CreateNew),
    Follower, Follower, Follower, Follower]

  const BEFORE: State := Start(Log([[]], Some(0)), 0, 0)
  const ROTATED_TWICE: State := State(Log([[], [65], []], Some(2)), 0, 0, Polling, [], 0, 0, [0])
  const REOPENED: State := State(Log([[], [65], []], Some(2)), 2, 0, Polling, [], 0, 0, [0, 0, 0])

  const ROTATED_ONCE: State := State(Log([[], [65]], Some(1)), 0, 0, Polling, [], 0, 0, [0])

  lemma OneRotationHappens()
    ensures Run(BEFORE, TWO_ROTATIONS) == Run(ROTATED_ONCE, TWO_ROTATIONS[3..])
  {
    var a := TWO_ROTATIONS;
    assert a[0..] == a;
    RunStep(BEFORE, a, 0);
    RunStep(BEFORE.(log := Log([[]], None)), a, 1);
    var s2 := BEFORE.(log := Log([[], []], Some(1)));
    assert Happen(Log([[]], None), CreateNew) == s2.log;
    RunStep(s2, a, 2);
    var none: Bytes := [];
    assert none + [65] == [65];
    assert Do(s2, a[2]) == ROTATED_ONCE;
  }

  lemma TwoRotationsHappen()
    ensures Run(BEFORE, TWO_ROTATIONS) == Run(ROTATED_TWICE, TWO_ROTATIONS[5..])
  {
    var a := TWO_ROTATIONS;
    OneRotationHappens();
    RunStep(ROTATED_ONCE, a, 3);
    var s4 := ROTATED_ONCE.(log := Log([[], [65]], None));
    RunStep(s4, a, 4);
    assert Do(s4, a[4]) == ROTATED_TWICE;
  }

  const DRAINED: State := ROTATED_TWICE.(pc := Drained(0))

  lemma FollowerDrains()
    ensures Run(ROTATED_TWICE, TWO_ROTATIONS[5..]) == Run(DRAINED, TWO_ROTATIONS[7..])
  {
    var a := TWO_ROTATIONS;
    RunStep(ROTATED_TWICE, a, 5);
    var s6 := ROTATED_TWICE.(pc := Statted(2, 0));
    RunStep(s6, a, 6);
    assert Tick(s6) == DRAINED;
  }

  lemma FollowerReopens()
    ensures Run(DRAINED, TWO_ROTATIONS[7..]) == REOPENED
  {
    var a := TWO_ROTATIONS;
    RunStep(DRAINED, a, 7);
    var s8 := REOPENED.(pc := Reopened(0));
    assert [0] + seq(2, _ => 0) == [0, 0, 0];
    assert Tick(DRAINED) == s8;
    RunStep(s8, a, 8);
    assert a[9..] == [];
  }

  /** Two rotations between two polls: the daemon in the middle wrote one byte, which the
      follower never shows. */
  lemma SecondRotationLosesBytes()
    ensures CanStart(Log([[]], Some(0)), 0, 0)
    ensures var t := Run(Start(Log([[]], Some(0)), 0, 0), TWO_ROTATIONS);
            Valid(t) && t.out == [] && !ExactlyOnce(t)
  {
    StartIsValid(Log([[]], Some(0)), 0, 0);
    TwoRotationsHappen();
    FollowerDrains();
    FollowerReopens();
    RunKeepsValid(BEFORE, TWO_ROTATIONS);
    ReopenedMissesOne();
  }

  lemma ReopenedMissesOne()
    requires Valid(REOPENED)
    ensures !ExactlyOnce(REOPENED)
  {
    var files := REOPENED.log.files;
    WholeGrows(files, 0, 0, 2, 0);
    WholeGrows(files, 0, 0, 1, 0);
    assert |Upto(files, 0, 0, 2, 0)| >= |Upto(files, 0, 0, 1, |files[1]|)| >= 1;
  }
}
