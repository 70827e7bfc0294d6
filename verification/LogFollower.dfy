/**
 The follow loop in its own form: an object whose `file` and `offset` the loop updates,
 with whatever the daemons do to the log let in between any two of its system calls.
 */
module LogFollower {
  import opened Wrappers
  import opened Octets
  import opened LogFollow

  /** What others do to the log in one round: before the stat, before the read that follows
      it, before the reopen, and before the read of the new file. */
  datatype Round = Round(e0: seq<Event>, e1: seq<Event>, e2: seq<Event>, e3: seq<Event>)

  function Others(es: seq<Event>): seq<Act> {
    seq(|es|, i requires 0 <= i < |es| => Other(es[i]))
  }

  function Happened(log: Log, es: seq<Event>): Log
    decreases |es|
  {
    if es == [] then log else Happened(Happen(log, es[0]), es[1..])
  }

  lemma {:induction false} OthersRun(s: State, es: seq<Event>)
    ensures Run(s, Others(es)) == s.(log := Happened(s.log, es))
    decreases |es|
  {
    if es != [] {
      assert Others(es)[1..] == Others(es[1..]);
      OthersRun(Do(s, Other(es[0])), es[1..]);
    }
  }

  function Meanwhile(s: State, es: seq<Event>): State {
    s.(log := Happened(s.log, es))
  }

  /** One round as ticks of the loop with the others' events in between. */
  function PollRun(s: State, r: Round): State {
    var a := Tick(Meanwhile(s, r.e0));
    if a.pc.Statted? then SeenRun(a, r) else a
  }

  /** The rest of a round once the path has been looked at. */
  function SeenRun(a: State, r: Round): State {
    var b := Tick(Meanwhile(a, r.e1));
    if !b.pc.Drained? then b
    else
      var c := Tick(Meanwhile(b, r.e2));
      if !c.pc.Reopened? then c else Tick(Meanwhile(c, r.e3))
  }

  lemma SeenCases(a: State, r: Round)
    requires a.pc.Statted?
    ensures var m := Meanwhile(a, r.e1);
            if m.pc.seen == m.held then SeenRun(a, r) == Tick(m)
            else
              var drained := PrintAppended(m).(pc := Drained(m.pc.len), offset := m.offset);
              var c := Tick(Meanwhile(drained, r.e2));
              SeenRun(a, r) == if c.pc.Reopened? then Tick(Meanwhile(c, r.e3)) else c
  {
  }

  /** With the file unchanged the round ends as after a reopening. */
  lemma SameFileTick(m: State)
    requires m.pc.Statted? && m.pc.seen == m.held
    ensures Tick(m) == Tick(m.(pc := Reopened(m.pc.len), offset := if m.pc.len < m.offset then 0 else m.offset))
  {
  }

  function FollowRun(s: State, rounds: seq<Round>): State
    decreases |rounds|
  {
    if rounds == [] || s.pc.Failed? then s else FollowRun(PollRun(s, rounds[0]), rounds[1..])
  }

  lemma MeanwhileThenTick(s: State, es: seq<Event>)
    requires Valid(s)
    ensures Valid(Meanwhile(s, es)) && Valid(Tick(Meanwhile(s, es)))
    ensures Run(s, Gap(es)) == Tick(Meanwhile(s, es))
  {
    OthersRun(s, es);
    RunKeepsValid(s, Others(es));
    TickKeepsValid(Meanwhile(s, es));
    RunConcat(s, Others(es), [Follower]);
    assert [Follower][1..] == [];
  }

  // ---- The acts of a round

  /** What others do before a system call of the loop, and the call. */
  function Gap(es: seq<Event>): seq<Act> {
    Others(es) + [Follower]
  }

  /** A round's events in order, with a system call after each of the first `n` gaps. */
  function Woven(r: Round, n: nat): seq<Act> {
    if n == 0 then []
    else if n == 1 then Gap(r.e0)
    else if n == 2 then Gap(r.e0) + Gap(r.e1)
    else if n == 3 then Gap(r.e0) + Gap(r.e1) + Gap(r.e2)
    else Gap(r.e0) + Gap(r.e1) + Gap(r.e2) + Gap(r.e3)
  }

  function WovenAll(rounds: seq<Round>, ns: seq<nat>): seq<Act>
    decreases |ns|
  {
    if ns == [] || rounds == [] then [] else Woven(rounds[0], ns[0]) + WovenAll(rounds[1..], ns[1..])
  }

  /** How many system calls a round makes: one when nothing is at the path, two on the file held,
      else three or four, the third failing or reopening. */
  function Calls(s: State, r: Round): nat {
    var l0 := Happened(s.log, r.e0);
    if l0.path.None? then 1
    else if l0.path == Some(s.held) then 2
    else if Happened(Happened(l0, r.e1), r.e2).path.None? then 3
    else 4
  }

  lemma CallsAre(s: State, r: Round)
    requires s.pc.Polling?
    ensures var a, n := Tick(Meanwhile(s, r.e0)), Calls(s, r);
            && (n == 1 <==> !a.pc.Statted?)
            && (n > 1 ==>
                  var b := Tick(Meanwhile(a, r.e1));
                  && (n == 2 <==> !b.pc.Drained?)
                  && (n > 2 ==> (n == 4 <==> Tick(Meanwhile(b, r.e2)).pc.Reopened?)))
  {
  }

  lemma SeenIsRun(s: State, a: State, r: Round, n: nat)
    requires Valid(a) && a == Run(s, Gap(r.e0)) && 2 <= n <= 4
    requires var b := Tick(Meanwhile(a, r.e1));
             && (n == 2 <==> !b.pc.Drained?)
             && (n > 2 ==> (n == 4 <==> Tick(Meanwhile(b, r.e2)).pc.Reopened?))
    ensures SeenRun(a, r) == Run(s, Woven(r, n)) && Valid(SeenRun(a, r))
  {
    hide Gap, Tick, Valid;
    MeanwhileThenTick(a, r.e1);
    RunConcat(s, Gap(r.e0), Gap(r.e1));
    var b := Tick(Meanwhile(a, r.e1));
    if n > 2 {
      MeanwhileThenTick(b, r.e2);
      RunConcat(s, Gap(r.e0) + Gap(r.e1), Gap(r.e2));
      if n == 4 {
        MeanwhileThenTick(Tick(Meanwhile(b, r.e2)), r.e3);
        RunConcat(s, Gap(r.e0) + Gap(r.e1) + Gap(r.e2), Gap(r.e3));
      }
    }
  }

  /** A round is the run in which the round's events happen in order, with the loop's system calls
      in the gaps. */
  lemma PollIsRun(s: State, r: Round)
    requires Valid(s) && s.pc.Polling?
    ensures PollRun(s, r) == Run(s, Woven(r, Calls(s, r))) && Valid(PollRun(s, r))
    ensures PollRun(s, r).pc.Polling? || PollRun(s, r).pc.Failed?
  {
    MeanwhileThenTick(s, r.e0);
    CallsAre(s, r);
    if Calls(s, r) > 1 { SeenIsRun(s, Tick(Meanwhile(s, r.e0)), r, Calls(s, r)); }
    PollEnds(s, r);
  }

  lemma PollEnds(s: State, r: Round)
    requires s.pc.Polling?
    ensures PollRun(s, r).pc.Polling? || PollRun(s, r).pc.Failed?
  {
  }

  lemma CallsBound(s: State, r: Round)
    ensures 1 <= Calls(s, r) <= 4
  {
  }

  /** Any number of rounds is the run of their acts, each round with its own number of calls. */
  lemma {:induction false} FollowIsRun(s: State, rounds: seq<Round>) returns (ns: seq<nat>)
    requires Valid(s) && (s.pc.Polling? || s.pc.Failed?)
    ensures FollowRun(s, rounds) == Run(s, WovenAll(rounds, ns)) && Valid(FollowRun(s, rounds))
    ensures |ns| <= |rounds| && (|ns| < |rounds| ==> FollowRun(s, rounds).pc.Failed?)
    ensures forall i :: 0 <= i < |ns| ==> 1 <= ns[i] <= 4
    decreases |rounds|
  {
    hide PollRun, Woven, Valid, Calls;
    if rounds == [] || s.pc.Failed? {
      ns := [];
    } else {
      PollIsRun(s, rounds[0]);
      CallsBound(s, rounds[0]);
      var n := Calls(s, rounds[0]);
      var rest := FollowIsRun(PollRun(s, rounds[0]), rounds[1..]);
      ns := [n] + rest;
      assert ns[1..] == rest;
      RunConcat(s, Woven(rounds[0], n), WovenAll(rounds[1..], rest));
    }
  }

  // ---- What a round reaches

  function From(bytes: Bytes, offset: nat): Bytes {
    if offset <= |bytes| then bytes[offset..] else []
  }

  lemma {:induction false} HappenedGrows(log: Log, es: seq<Event>, f: nat)
    requires f < |log.files|
    ensures f < |Happened(log, es).files| && log.files[f] <= Happened(log, es).files[f]
    decreases |es|
  {
    if es != [] { HappenedGrows(Happen(log, es[0]), es[1..], f); }
  }

  /** Main result on one round, told from the log at its four system calls: with nothing at the
      path it does nothing; on the file held it prints up to the end that file has at the read, if
      the look at the path saw more than was printed; on another one it prints the held file to its
      end, and then either ends, for want of a file at the path, or holds the file at the path then
      and prints that from its start, unless the look saw an empty file. */
  lemma PollReaches(s: State, r: Round)
    requires Valid(s) && s.pc.Polling?
    ensures var l0 := Happened(s.log, r.e0);
            var l1 := Happened(l0, r.e1);
            var l2 := Happened(l1, r.e2);
            var l3 := Happened(l2, r.e3);
            var t := PollRun(s, r);
            match l0.path
            case None => t == s.(log := l0)
            case Some(p) =>
              var len, held := |FileAt(l0, p)|, FileAt(l1, s.held);
              if p == s.held then
                && t.pc.Polling? && t.log == l1 && t.held == s.held
                && t.offset == (if len > s.offset then |held| else s.offset)
                && t.out == s.out + if len > s.offset then From(held, s.offset) else []
              else if l2.path.None? then
                t.pc.Failed? && t.log == l2 && t.out == s.out + From(held, s.offset)
              else
                var next := FileAt(l3, l2.path.value);
                && t.pc.Polling? && t.log == l3 && t.held == l2.path.value
                && t.offset == (if len > 0 then |next| else 0)
                && t.out == s.out + From(held, s.offset) + if len > 0 then next else []
  {
    OthersRun(s, r.e0);
    RunKeepsValid(s, Others(r.e0));
    var m := Meanwhile(s, r.e0);
    var a := Tick(m);
    if a.pc.Statted? {
      OthersRun(a, r.e1);
      PollingKeepsValid(m);
      RunKeepsValid(a, Others(r.e1));
    }
  }

  /** So left alone for one round the loop is at the end of the file at the path, whichever file it
      held before. */
  lemma QuietRound(s: State)
    requires Valid(s) && s.pc.Polling? && s.log.path.Some?
    ensures AtEndOfLog(PollRun(s, Round([], [], [], [])))
  {
    CatchesUp(s);
  }

  class LogFollower {
    var log: Log
    var file: nat
    var offset: nat
    var printed: Bytes
    ghost var first: nat
    ghost var from: nat
    ghost var ends: seq<nat>

    ghost function At(pc: Pc): State
      reads this
    {
      State(log, file, offset, pc, printed, first, from, ends)
    }

    /** Open the path and start at the end of what is there. */
    constructor (log: Log, found: nat, length: nat)
      ensures At(Polling) == Start(log, found, length)
    {
      this.log, file, offset, printed := log, found, length, [];
      first, from, ends := found, length, [length];
    }

    method OthersAct(es: seq<Event>)
      modifies this`log
      ensures log == Happened(old(log), es)
    {
      assert es[0..] == es;
      for i := 0 to |es|
        invariant Happened(log, es[i..]) == Happened(old(log), es)
      {
        assert es[i..][0] == es[i] && es[i..][1..] == es[i + 1..];
        log := Happen(log, es[i]);
      }
    }

    /** Print everything in the open file past the offset; returns the new end offset. */
    method PrintAppended() returns (end: nat)
      modifies this`printed, this`ends
      ensures end == LogFollow.PrintAppended(old(At(Polling))).offset
      ensures At(Polling) == LogFollow.PrintAppended(old(At(Polling))).(offset := offset)
    {
      var content := FileAt(log, file);
      var bytes := if offset <= |content| then content[offset..] else [];
      printed := printed + bytes;
      end := offset + |bytes|;
      ends := WithLast(ends, end);
    }

    /** The path names another file than the open one: print the rest of the old file and
        open what is at the path by then. */
    method DrainAndReopen(ghost len: nat, es: seq<Event>) returns (ok: bool)
      modifies this
      ensures At(if ok then Reopened(len) else Failed)
              == var drained := LogFollow.PrintAppended(old(At(Polling))).(pc := Drained(len), offset := old(offset));
                 Tick(Meanwhile(drained, es))
    {
      var _ := PrintAppended();
      OthersAct(es);
      if log.path.None? { return false; }
      ghost var skipped := if log.path.value > file then log.path.value - file else 0;
      ends := ends + seq(skipped, _ => 0);
      file := log.path.value;
      offset := 0;
      ok := true;
    }

    /** Print what is new when the length seen at the path says there is something. */
    method PrintNew(len: nat)
      modifies this
      ensures At(Polling) == Tick(old(At(Reopened(len))))
    {
      if len > offset {
        offset := PrintAppended();
      }
    }

    /** The rest of a round once the path has been looked at. */
    method PrintSeen(seen: nat, len: nat, r: Round) returns (ok: bool)
      modifies this
      ensures At(if ok then Polling else Failed) == SeenRun(old(At(Statted(seen, len))), r)
    {
      hide Tick, SeenRun, Happened;
      ghost var a := At(Statted(seen, len));
      SeenCases(a, r);
      OthersAct(r.e1);
      if seen != file {
        ok := DrainAndReopen(len, r.e2);
        if !ok { return; }
        OthersAct(r.e3);
      } else {
        SameFileTick(At(Statted(seen, len)));
        if len < offset {
          offset := 0;
        }
      }
      assert SeenRun(a, r) == Tick(At(Reopened(len)));
      PrintNew(len);
      ok := true;
    }

    /** One round of the loop; `false` when it ends with an error. */
    method Poll(r: Round) returns (ok: bool)
      modifies this
      ensures At(if ok then Polling else Failed) == PollRun(old(At(Polling)), r)
    {
      OthersAct(r.e0);
      if log.path.None? { return true; }
      ok := PrintSeen(log.path.value, |FileAt(log, log.path.value)|, r);
    }

    /** The loop, for as many rounds as it is let run. */
    method Follow(rounds: seq<Round>)
      requires Valid(At(Polling))
      modifies this
      ensures At(FollowRun(old(At(Polling)), rounds).pc) == FollowRun(old(At(Polling)), rounds)
      ensures var t := FollowRun(old(At(Polling)), rounds);
              Valid(t) && (ExactlyOnce(t) <==> NothingLeftBehind(t))
    {
      hide PollRun, Valid, NothingLeftBehind, ExactlyOnce;
      ghost var s := At(Polling);
      ghost var ns := FollowIsRun(s, rounds);
      ExactlyOnceIff(s, WovenAll(rounds, ns));
      assert rounds[0..] == rounds;
      for i := 0 to |rounds|
        invariant FollowRun(At(Polling), rounds[i..]) == FollowRun(s, rounds)
      {
        assert rounds[i..][0] == rounds[i] && rounds[i..][1..] == rounds[i + 1..];
        var ok := Poll(rounds[i]);
        if !ok { return; }
      }
    }
  }
}
