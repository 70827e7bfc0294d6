/**
 Which runs of the log follower lose bytes, told from what the others do to the log: they write
 to a file the follower has left or drained, or a file with something in it comes and goes
 before the follower looks.
 */
module LogLosses {
  import opened Wrappers
  import opened Octets
  import opened LogFollow

  /** Something is written to the file the follower holds. */
  predicate WritesTo(s: State, a: Act, f: nat) {
    a.Other? && a.e.Append? && a.e.file == f && f < |s.log.files| && a.e.bytes != []
  }

  /** Whether the drained file has been written to since. */
  predicate LateAfter(s: State, a: Act, late: bool) {
    Do(s, a).pc.Drained? && (late || (s.pc.Drained? && WritesTo(s, a, s.held)))
  }

  /** The act loses bytes: a write to a file left behind, or a reopening of the path when the
      drained file was written to since or a file in between holds something. */
  ghost predicate LosesNow(s: State, a: Act, late: bool) {
    || (a.Other? && a.e.Append? && s.first <= a.e.file < s.held && WritesTo(s, a, a.e.file))
    || (a.Follower? && s.pc.Drained? && s.log.path.Some?
        && (late || exists g :: s.held < g < s.log.path.value && FileAt(s.log, g) != []))
  }

  ghost predicate Loses(s: State, acts: seq<Act>, late: bool)
    decreases |acts|
  {
    acts != [] && (LosesNow(s, acts[0], late) || Loses(Do(s, acts[0]), acts[1..], LateAfter(s, acts[0], late)))
  }

  /** What `late` stands for. */
  ghost predicate Tracks(s: State, late: bool)
    requires Valid(s)
  {
    if s.pc.Drained? then late <==> s.ends[|s.ends| - 1] < |s.log.files[s.held]| else !late
  }

  /** Bytes left behind stay left behind. */
  lemma {:induction false} LeftForGood(s: State, acts: seq<Act>)
    requires Valid(s) && !NothingLeftBehind(s)
    ensures Valid(Run(s, acts)) && !NothingLeftBehind(Run(s, acts))
    decreases |acts|
  {
    if acts != [] {
      StepKeepsValid(s, acts[0]);
      LeftByStep(s, acts[0]);
      LeftForGood(Do(s, acts[0]), acts[1..]);
    }
  }

  lemma EarlierMarksStay(s: State, i: nat)
    requires i + 1 < |s.ends|
    ensures Tick(s).log == s.log && Tick(s).first == s.first
    ensures |Tick(s).ends| >= |s.ends| && Tick(s).ends[i] == s.ends[i]
  {
  }

  lemma LeftByStep(s: State, a: Act)
    requires Valid(s) && Valid(Do(s, a)) && !NothingLeftBehind(s)
    ensures !NothingLeftBehind(Do(s, a))
  {
    var i :| 0 <= i < |s.ends| - 1 && s.ends[i] != |s.log.files[s.first + i]|;
    if a.Follower? { EarlierMarksStay(s, i); }
    assert Do(s, a).ends[i] == s.ends[i] && |Do(s, a).log.files[s.first + i]| >= |s.log.files[s.first + i]|;
  }

  /** An act by the others loses bytes exactly when it writes to a file left behind. */
  lemma OtherLosesIff(s: State, e: Event, late: bool)
    requires Valid(s) && NothingLeftBehind(s) && Tracks(s, late)
    ensures Valid(Do(s, Other(e)))
    ensures NothingLeftBehind(Do(s, Other(e))) <==> !LosesNow(s, Other(e), late)
    ensures Tracks(Do(s, Other(e)), LateAfter(s, Other(e), late))
  {
    OtherKeepsValid(s, e);
    var t := Do(s, Other(e));
    if LosesNow(s, Other(e), late) {
      var i := e.file - s.first;
      assert t.ends[i] == s.ends[i] == |s.log.files[e.file]| < |t.log.files[e.file]|;
    }
  }

  lemma TickLosesIff(s: State, late: bool)
    requires Valid(s) && NothingLeftBehind(s) && Tracks(s, late)
    ensures Valid(Tick(s))
    ensures NothingLeftBehind(Tick(s)) <==> !LosesNow(s, Follower, late)
    ensures Tracks(Tick(s), LateAfter(s, Follower, late))
  {
    TickKeepsValid(s);
    if s.pc.Drained? {
      if s.log.path.Some? { ReopenLosesIff(s, late); }
    } else {
      PrintKeepsLeftBehind(s, Tick(s));
      if s.pc.Statted? { PrintedToEnd(s); }
    }
  }

  lemma ReopenLosesIff(s: State, late: bool)
    requires Valid(s) && NothingLeftBehind(s) && Tracks(s, late) && s.pc.Drained? && s.log.path.Some?
    requires Valid(Tick(s))
    ensures NothingLeftBehind(Tick(s)) <==> !LosesNow(s, Follower, late)
  {
    var t := Tick(s);
    var n, next := |s.ends|, s.log.path.value;
    assert |t.ends| == n + (next - s.held);
    assert forall i :: 0 <= i < n ==> t.ends[i] == s.ends[i];
    assert forall i :: n <= i < |t.ends| ==> t.ends[i] == 0;
    if late {
      assert t.ends[n - 1] != |t.log.files[t.first + n - 1]|;
    } else if g :| s.held < g < next && FileAt(s.log, g) != [] {
      assert t.ends[g - s.first] != |t.log.files[t.first + (g - s.first)]|;
    } else {
      forall i | 0 <= i < |t.ends| - 1 ensures t.ends[i] == |t.log.files[t.first + i]| {
        if i >= n { assert FileAt(s.log, s.first + i) == []; }
      }
    }
  }

  /** Main result, for every run: the output is the log exactly once if and only if no act of the
      run loses bytes. */
  lemma {:induction false} LossesIff(s: State, acts: seq<Act>, late: bool)
    requires Valid(s) && NothingLeftBehind(s) && Tracks(s, late)
    ensures Valid(Run(s, acts)) && (ExactlyOnce(Run(s, acts)) <==> !Loses(s, acts, late))
    decreases |acts|
  {
    ExactlyOnceIff(s, acts);
    if acts != [] {
      var a := acts[0];
      if a.Follower? { TickLosesIff(s, late); } else { OtherLosesIff(s, a.e, late); }
      if LosesNow(s, a, late) {
        LeftForGood(Do(s, a), acts[1..]);
      } else {
        LossesIff(Do(s, a), acts[1..], LateAfter(s, a, late));
      }
    }
  }

  /** From the opening on. */
  lemma FollowerLosesIff(log: Log, held: nat, offset: nat, acts: seq<Act>)
    requires CanStart(log, held, offset)
    ensures var s := Start(log, held, offset);
            Valid(Run(s, acts)) && (ExactlyOnce(Run(s, acts)) <==> !Loses(s, acts, false))
  {
    LossesIff(Start(log, held, offset), acts, false);
  }

  // ---- Whether the whole log gets shown

  /** All there is in the log, from where the follower started. */
  ghost function Whole(s: State): Bytes
    requires Valid(s)
  {
    var last := |s.log.files| - 1;
    Upto(s.log.files, s.first, s.from, last, |s.log.files[last]|)
  }

  lemma ConsumedAllIff(files: seq<Bytes>, first: nat, from: nat, e: seq<nat>)
    requires Marks(files, first, from, e) && first + |e| == |files|
    ensures Consumed(files, first, from, e, |e|) == Upto(files, first, from, |files| - 1, |files[|files| - 1]|)
            <==> forall i :: 0 <= i < |e| ==> e[i] == |files[first + i]|
  {
    ConsumedVersusWhole(files, first, from, e, |e|);
    WholeGrows(files, first, from, |files| - 1, e[|e| - 1]);
  }

  lemma PaddedMarks(s: State, e: seq<nat>)
    requires Valid(s) && e == s.ends + seq(|s.log.files| - 1 - s.held, _ => 0)
    ensures Marks(s.log.files, s.first, s.from, e) && s.first + |e| == |s.log.files|
    ensures Consumed(s.log.files, s.first, s.from, e, |e|) == s.out
  {
    ConsumedSkips(s.log.files, s.first, s.from, s.ends, |s.log.files| - 1 - s.held);
  }

  /** Main result, for every state of every run: the whole log has been shown if and only if the
      files left behind and the one held were read to their ends and every later one is empty. */
  lemma WholeShownIff(s: State)
    requires Valid(s)
    ensures s.out == Whole(s)
            <==> && NothingLeftBehind(s) && s.ends[|s.ends| - 1] == |s.log.files[s.held]|
                 && forall g :: s.held < g < |s.log.files| ==> s.log.files[g] == []
  {
    var e := s.ends + seq(|s.log.files| - 1 - s.held, _ => 0);
    PaddedMarks(s, e);
    ConsumedAllIff(s.log.files, s.first, s.from, e);
    MarksAtEnds(s, e);
  }

  lemma MarksAtEnds(s: State, e: seq<nat>)
    requires Valid(s) && e == s.ends + seq(|s.log.files| - 1 - s.held, _ => 0)
    ensures (forall i :: 0 <= i < |e| ==> e[i] == |s.log.files[s.first + i]|)
            <==> && NothingLeftBehind(s) && s.ends[|s.ends| - 1] == |s.log.files[s.held]|
                 && forall g :: s.held < g < |s.log.files| ==> s.log.files[g] == []
  {
    var n := |s.ends|;
    assert forall i :: 0 <= i < n ==> e[i] == s.ends[i];
    if forall i :: 0 <= i < |e| ==> e[i] == |s.log.files[s.first + i]| {
      forall g | s.held < g < |s.log.files| ensures s.log.files[g] == [] {
        assert e[g - s.first] == |s.log.files[s.first + (g - s.first)]|;
      }
      assert e[n - 1] == |s.log.files[s.first + (n - 1)]|;
    }
  }

  /** The follower looks for the path when nothing is there. */
  predicate OpensNothing(s: State, acts: seq<Act>)
    decreases |acts|
  {
    && acts != []
    && (|| (acts[0].Follower? && s.pc.Drained? && s.log.path.None?)
        || OpensNothing(Do(s, acts[0]), acts[1..]))
  }

  /** It ends, with an error, exactly then, and shows nothing more. */
  lemma {:induction false} EndsIff(s: State, acts: seq<Act>)
    ensures Run(s, acts).pc.Failed? <==> s.pc.Failed? || OpensNothing(s, acts)
    ensures s.pc.Failed? ==> Run(s, acts).out == s.out
    decreases |acts|
  {
    if acts != [] { EndsIff(Do(s, acts[0]), acts[1..]); }
  }

  const FAILING: seq<Act> := [
    Follower, Follower, Other(RotateAway), Follower, Other(CreateNew), Other(Append(2, [65]))]

  const ROTATED: State := Start(Log([[], []], Some(1)), 0, 0)
  const ENDED: State := ROTATED.(log := Log([[], []], None), pc := Failed)
  const UNSHOWN: State := ROTATED.(log := Log([[], [], [65]], Some(2)), pc := Failed)

  lemma FollowerEnds()
    ensures Run(ROTATED, FAILING) == Run(ENDED, FAILING[4..])
  {
    var a := FAILING;
    assert a[0..] == a;
    RunStep(ROTATED, a, 0);
    var s1 := ROTATED.(pc := Statted(1, 0));
    RunStep(s1, a, 1);
    var s2 := ROTATED.(pc := Drained(0));
    assert Tick(s1) == s2;
    RunStep(s2, a, 2);
    RunStep(s2.(log := Log([[], []], None)), a, 3);
  }

  lemma DaemonGoesOn()
    ensures Run(ENDED, FAILING[4..]) == UNSHOWN
  {
    var a := FAILING;
    RunStep(ENDED, a, 4);
    var s5 := ENDED.(log := Log([[], [], []], Some(2)));
    assert Do(ENDED, a[4]) == s5;
    RunStep(s5, a, 5);
    var none: Bytes := [];
    assert none + [65] == [65];
    assert Do(s5, a[5]) == UNSHOWN;
    assert a[6..] == [];
  }

  lemma ShownUpToHeld()
    requires Valid(UNSHOWN)
    ensures ExactlyOnce(UNSHOWN) && UNSHOWN.out != Whole(UNSHOWN)
  {
    WholeShownIff(UNSHOWN);
    assert UNSHOWN.log.files[2] != [];
  }

  /** Between the stat and the reopening the log is rotated away once more: the follower ends with
      an error, so no act loses bytes, and yet what the next daemon writes is never shown. */
  lemma FailedReopening(more: seq<Act>)
    ensures CanStart(Log([[], []], Some(1)), 0, 0)
    ensures var s := Start(Log([[], []], Some(1)), 0, 0);
            var t := Run(s, FAILING);
            && t.pc.Failed? && t.log == Log([[], [], [65]], Some(2)) && !Loses(s, FAILING, false)
            && Valid(t) && t.out != Whole(t) && Run(s, FAILING + more).out == []
  {
    FollowerEnds();
    DaemonGoesOn();
    FollowerLosesIff(Log([[], []], Some(1)), 0, 0, FAILING);
    ShownUpToHeld();
    RunConcat(ROTATED, FAILING, more);
    EndsIff(UNSHOWN, more);
  }

  // ---- Left alone

  /** Ticks of the follower with nothing happening in between. */
  function Alone(n: nat): seq<Act> {
    if n == 0 then [] else [Follower] + Alone(n - 1)
  }

  lemma AloneTicks(s: State, n: nat)
    ensures Run(s, Alone(n + 1)) == Run(Tick(s), Alone(n))
  {
    assert Alone(n + 1)[1..] == Alone(n);
  }

  lemma AloneRound(s: State)
    ensures Run(s, Alone(2)) == Tick(Tick(s)) && Run(s, Alone(4)) == Tick(Tick(Tick(Tick(s))))
  {
    var a, b := Tick(s), Tick(Tick(s));
    AloneTicks(s, 1);
    AloneTicks(a, 0);
    AloneTicks(s, 3);
    AloneTicks(a, 2);
    AloneTicks(b, 1);
    AloneTicks(Tick(b), 0);
  }

  lemma PollingCatchesUp(s: State) returns (n: nat)
    requires Valid(s) && s.pc.Polling? && s.log.path.Some?
    ensures n == (if s.log.path == Some(s.held) then 2 else 4) && AtEndOfLog(Run(s, Alone(n)))
  {
    CatchesUp(s);
    AloneRound(s);
    n := if s.log.path == Some(s.held) then 2 else 4;
  }

  lemma ReopenedCatchesUp(s: State) returns (n: nat)
    requires Valid(s) && s.pc.Reopened? && s.log.path.Some?
    ensures n <= (if s.log.path == Some(s.held) then 3 else 5) && AtEndOfLog(Run(s, Alone(n)))
  {
    ReopenedKeepsValid(s);
    var m := PollingCatchesUp(Tick(s));
    AloneTicks(s, m);
    n := m + 1;
  }

  lemma DrainedCatchesUp(s: State) returns (n: nat)
    requires Valid(s) && s.pc.Drained? && s.log.path.Some?
    ensures n <= 4 && AtEndOfLog(Run(s, Alone(n)))
  {
    DrainedKeepsValid(s);
    var m := ReopenedCatchesUp(Tick(s));
    AloneTicks(s, m);
    n := m + 1;
  }

  /** Wherever the loop stands, five ticks bring it to the end of the file at the path. */
  lemma CatchesUpFrom(s: State) returns (n: nat)
    requires Valid(s) && !s.pc.Failed? && s.log.path.Some?
    ensures n <= 5 && AtEndOfLog(Run(s, Alone(n)))
  {
    match s.pc
    case Polling => n := PollingCatchesUp(s);
    case Reopened(_) => n := ReopenedCatchesUp(s);
    case Drained(_) => n := DrainedCatchesUp(s);
    case Statted(seen, _) =>
      StattedKeepsValid(s);
      var m;
      if seen == s.held { m := PollingCatchesUp(Tick(s)); } else { m := DrainedCatchesUp(Tick(s)); }
      AloneTicks(s, m);
      n := m + 1;
  }

  /** The reopening that lies ahead would pass over bytes: what came to the file drained last
      since, or a file between the one held and the one at the path. */
  ghost predicate WillSkip(s: State)
    requires Valid(s) && s.log.path.Some?
  {
    || (s.pc.Drained? && s.ends[|s.ends| - 1] < |s.log.files[s.held]|)
    || exists g :: s.held < g < s.log.path.value && FileAt(s.log, g) != []
  }

  ghost predicate Loss(s: State)
    requires Valid(s) && s.log.path.Some?
  {
    !NothingLeftBehind(s) || WillSkip(s)
  }

  /** A tick of its own neither makes nor mends a loss. */
  lemma TickKeepsLoss(s: State)
    requires Valid(s) && s.log.path.Some?
    ensures Valid(Tick(s)) && Tick(s).log == s.log && (Loss(Tick(s)) <==> Loss(s))
  {
    TickKeepsValid(s);
    if !NothingLeftBehind(s) {
      LeftByStep(s, Follower);
    } else if s.pc.Drained? {
      ReopenLosesIff(s, s.ends[|s.ends| - 1] < |s.log.files[s.held]|);
    } else {
      PrintKeepsLeftBehind(s, Tick(s));
      if s.pc.Statted? && s.pc.seen != s.held { DrainReachesEnd(s); }
    }
  }

  lemma {:induction false} AloneKeepsLoss(s: State, n: nat)
    requires Valid(s) && s.log.path.Some?
    ensures var t := Run(s, Alone(n)); Valid(t) && t.log == s.log && (Loss(t) <==> Loss(s))
    decreases n
  {
    if n > 0 {
      AloneTicks(s, n - 1);
      TickKeepsLoss(s);
      AloneKeepsLoss(Tick(s), n - 1);
    }
  }

  lemma AtEndShowsIff(s: State)
    requires AtEndOfLog(s)
    ensures s.out == Whole(s) <==> !Loss(s)
  {
    WholeShownIff(s);
  }

  /** Main result on following: after any run that has not ended with an error and has a file at
      the path, at most five more ticks bring the follower to the end of the log, and what it has
      shown then is the whole of it if and only if no act of the run lost bytes and the reopening
      it may still have ahead passes over none. */
  lemma ShowsWholeLogIff(log: Log, held: nat, offset: nat, acts: seq<Act>) returns (n: nat)
    requires CanStart(log, held, offset)
    requires var s := Run(Start(log, held, offset), acts); !s.pc.Failed? && s.log.path.Some?
    ensures n <= 5
    ensures var start := Start(log, held, offset);
            var s, t := Run(start, acts), Run(start, acts + Alone(n));
            && Valid(s) && AtEndOfLog(t) && t.log == s.log
            && (t.out == Whole(t) <==> !Loses(start, acts, false) && !WillSkip(s))
  {
    var start := Start(log, held, offset);
    var s := Run(start, acts);
    RunKeepsValid(start, acts);
    n := CatchesUpFrom(s);
    RunConcat(start, acts, Alone(n));
    AloneKeepsLoss(s, n);
    AtEndShowsIff(Run(s, Alone(n)));
    FollowerLosesIff(log, held, offset, acts);
    ExactlyOnceIff(start, acts);
  }
}
