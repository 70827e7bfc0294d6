/**
 Restarting the daemon after an update: the contract of crates/ccteam-cli/src/update.rs over
 the restart of crates/ccteam-cli/src/daemon_cli.rs, with what stopping and starting do taken
 from crates/ccteam-core/src/daemon.rs.
 */
module RestartContract {
  import opened Wrappers
  import opened Json
  import opened LauncherArgv

  datatype Probe = Probe(ready: bool, version: Option<string>)

  datatype StopVerdict = Stopped(pid: nat) | NotRunning | RefusedNotManaged | TimedOut(pid: nat)

  datatype StartVerdict = Started(pid: nat, version: Option<string>) | AlreadyRunning(version: Option<string>)

  datatype RestartOutcome =
    | Replaced(pid: nat, version: Option<string>)
    | FreshlyStarted(pid: nat, version: Option<string>)
    | NotManaged
    | StopTimedOut(pid: nat)
    | AlreadyServing(version: Option<string>)
    | ReplayUnavailable

  datatype Status =
    | DaemonDown
    | Restarted(version: Option<string>)
    | VersionSkew(running: Option<string>, expected: string)
    | RestartRefused
    | RestartError

  /** What the outside answers: the two probes, the launcher's record and the health report, and
      how locking, stopping, finding the program and starting turn out (`None` is an error).
      A start that fails may have left a process behind. */
  datatype World = World(
    first: Probe, recorded: Option<seq<string>>, health: Option<Json>,
    locks: bool, stop: Option<StopVerdict>, program: bool, start: Option<StartVerdict>, leftBehind: bool,
    second: Probe)

  /** What happens to the machine, in order. */
  datatype Effect =
    | Probed(answer: Probe)
    | Drained
    | Signalled(pid: nat)
    | Exited(pid: nat)
    | Spawned(args: seq<string>)
    | Serves(version: Option<string>)

  // ---- The specification

  /** What replaying the running invocation yields; see `PlanReplay`. */
  type Replay = Result<seq<string>, Hint>

  function StopEffects(w: World): seq<Effect> {
    match w.stop
    case Some(Stopped(pid)) => [Signalled(pid), Exited(pid)]
    case Some(TimedOut(pid)) => [Signalled(pid)]
    case _ => []
  }

  function StartEffects(w: World, args: seq<string>): seq<Effect> {
    match w.start
    case Some(Started(_, version)) => [Spawned(args), Serves(version)]
    case Some(AlreadyRunning(version)) => [Serves(version)]
    case None => if w.leftBehind then [Spawned(args)] else []
  }

  predicate GoesOn(w: World) {
    w.stop.Some? && (w.stop.value.Stopped? || w.stop.value.NotRunning?)
  }

  function RestartEffects(replay: Replay, w: World): seq<Effect> {
    match replay
    case Failure(_) => []
    case Success(args) =>
      if !w.locks then []
      else StopEffects(w) + if GoesOn(w) && w.program then StartEffects(w, args) else []
  }

  /** `None` when the restart itself fails. */
  function Restart(replay: Replay, w: World): Option<RestartOutcome> {
    if replay.Failure? then Some(ReplayUnavailable)
    else if !w.locks || w.stop.None? then None
    else
      match w.stop.value
      case RefusedNotManaged => Some(NotManaged)
      case TimedOut(pid) => Some(StopTimedOut(pid))
      case _ =>
        if !w.program || w.start.None? then None
        else
          match w.start.value
          case Started(pid, version) =>
            Some(if w.stop.value.Stopped? then Replaced(pid, version) else FreshlyStarted(pid, version))
          case AlreadyRunning(version) => Some(AlreadyServing(version))
  }

  function Verdict(expected: string, second: Probe): Status {
    if second.version == Some(expected) then Restarted(second.version) else VersionSkew(second.version, expected)
  }

  predicate Probes(o: Option<RestartOutcome>) {
    o.Some? && (o.value.Replaced? || o.value.FreshlyStarted? || o.value.AlreadyServing?)
  }

  function Contract(replay: Replay, expected: string, w: World): Status {
    if !w.first.ready then DaemonDown
    else
      match Restart(replay, w)
      case None => RestartError
      case Some(o) =>
        if o.NotManaged? || o.ReplayUnavailable? then RestartRefused
        else if o.StopTimedOut? then RestartError
        else Verdict(expected, w.second)
  }

  function Effects(replay: Replay, skipWait: bool, w: World): seq<Effect> {
    if !w.first.ready then [Probed(w.first)]
    else [Probed(w.first)] + Waiting(skipWait) + RestartEffects(replay, w) + SecondProbe(replay, w)
  }

  function Waiting(skipWait: bool): seq<Effect> {
    if skipWait then [] else [Drained]
  }

  function SecondProbe(replay: Replay, w: World): seq<Effect> {
    if Probes(Restart(replay, w)) then [Probed(w.second)] else []
  }

  // ---- In the source's form

  class Updater {
    var effects: seq<Effect>

    method StopManaged(w: World) returns (v: Option<StopVerdict>)
      modifies this
      ensures v == w.stop && effects == old(effects) + StopEffects(w)
    {
      v := w.stop;
      if v.Some? && (v.value.Stopped? || v.value.TimedOut?) {
        effects := effects + [Signalled(v.value.pid)];
        if v.value.Stopped? { effects := effects + [Exited(v.value.pid)]; }
      }
    }

    method StartManaged(w: World, args: seq<string>) returns (v: Option<StartVerdict>)
      modifies this
      ensures v == w.start && effects == old(effects) + StartEffects(w, args)
    {
      v := w.start;
      match v {
        case Some(Started(_, version)) => effects := effects + [Spawned(args)] + [Serves(version)];
        case Some(AlreadyRunning(version)) => effects := effects + [Serves(version)];
        case None => if w.leftBehind { effects := effects + [Spawned(args)]; }
      }
    }

    /** `restart_managed` replaying the running invocation. */
    method RestartManaged(net: Net, w: World) returns (o: Option<RestartOutcome>)
      modifies this
      ensures var replay := PlanReplay(net, w.recorded, w.health);
              o == Restart(replay, w) && effects == old(effects) + RestartEffects(replay, w)
    {
      var replay := PlanReplay(net, w.recorded, w.health);
      if replay.Failure? { return Some(ReplayUnavailable); }
      if !w.locks { return None; }
      var stopped := StopManaged(w);
      if stopped.None? { return None; }
      var wasRunning;
      match stopped.value {
        case Stopped(_) => wasRunning := true;
        case NotRunning => wasRunning := false;
        case RefusedNotManaged => return Some(NotManaged);
        case TimedOut(pid) => return Some(StopTimedOut(pid));
      }
      if !w.program { return None; }
      ghost var before := effects;
      var started := StartManaged(w, replay.value);
      assert effects == old(effects) + (StopEffects(w) + StartEffects(w, replay.value));
      match started {
        case None => o := None;
        case Some(Started(pid, version)) =>
          o := Some(if wasRunning then Replaced(pid, version) else FreshlyStarted(pid, version));
        case Some(AlreadyRunning(version)) => o := Some(AlreadyServing(version));
      }
    }

    /** `run_restart_contract`. */
    method RunContract(net: Net, expected: string, skipWait: bool, w: World) returns (s: Status)
      modifies this
      ensures var replay := PlanReplay(net, w.recorded, w.health);
              s == Contract(replay, expected, w) && effects == old(effects) + Effects(replay, skipWait, w)
    {
      ghost var replay := PlanReplay(net, w.recorded, w.health);
      effects := effects + [Probed(w.first)];
      if !w.first.ready { return DaemonDown; }
      if !skipWait { effects := effects + [Drained]; }
      assert effects == old(effects) + [Probed(w.first)] + Waiting(skipWait);
      var outcome := RestartManaged(net, w);
      s := RestartError;
      if Probes(outcome) {
        effects := effects + [Probed(w.second)];
        s := Verdict(expected, w.second);
      } else if outcome.Some? && !outcome.value.StopTimedOut? {
        s := RestartRefused;
      }
      Flatten(old(effects), [Probed(w.first)], Waiting(skipWait), RestartEffects(replay, w), SecondProbe(replay, w));
    }
  }

  lemma Flatten<T>(a: seq<T>, b: seq<T>, c: seq<T>, d: seq<T>, e: seq<T>)
    ensures a + (b + c + d + e) == a + b + c + d + e
    ensures e == [] ==> a + (b + c + d + e) == a + b + c + d
  {
  }

  // ---- What a status means

  /** Which status is said, on the answers of the outside. */
  lemma StatusIff(replay: Replay, expected: string, w: World)
    ensures var s := Contract(replay, expected, w);
            var refused := replay.Failure? || (w.locks && w.stop == Some(RefusedNotManaged));
            var goesOn := w.locks && w.stop.Some? && (w.stop.value.Stopped? || w.stop.value.NotRunning?);
            var serves := replay.Success? && goesOn && w.program && w.start.Some?;
            && (s.DaemonDown? <==> !w.first.ready)
            && (s.RestartRefused? <==> w.first.ready && refused)
            && (s.RestartError? <==> w.first.ready && !refused && !serves)
            && (s.Restarted? <==> w.first.ready && serves && w.second.version == Some(expected))
            && (s.VersionSkew? <==> w.first.ready && serves && w.second.version != Some(expected))
            && (s.Restarted? ==> s.version == Some(expected))
            && (s.VersionSkew? ==> s == VersionSkew(w.second.version, expected))
  {
  }

  /** Which effects there are, on the answers of the outside: the drain unless waiting is skipped,
      a signal and an exit for what the stop reached, the start of the replayed command line, and who
      is said to serve. */
  lemma EffectsIff(replay: Replay, skipWait: bool, w: World, pid: nat, args: seq<string>, version: Option<string>)
    ensures var e := Effects(replay, skipWait, w);
            var tries := w.first.ready && replay.Success? && w.locks;
            var starts := tries && GoesOn(w) && w.program;
            && (Drained in e <==> w.first.ready && !skipWait)
            && (Signalled(pid) in e <==> tries && w.stop in {Some(Stopped(pid)), Some(TimedOut(pid))})
            && (Exited(pid) in e <==> tries && w.stop == Some(Stopped(pid)))
            && (Spawned(args) in e <==>
                  starts && replay.value == args && (if w.start.Some? then w.start.value.Started? else w.leftBehind))
            && (Serves(version) in e <==> starts && w.start.Some? && w.start.value.version == version)
  {
    InEffects(replay, skipWait, w, Drained);
    InEffects(replay, skipWait, w, Signalled(pid));
    InEffects(replay, skipWait, w, Exited(pid));
    InEffects(replay, skipWait, w, Spawned(args));
    InEffects(replay, skipWait, w, Serves(version));
    hide Effects, RestartEffects, StopEffects, StartEffects;
    InStop(w, pid);
    if replay.Success? {
      InRestart(w, replay.value, Drained);
      InRestart(w, replay.value, Signalled(pid));
      InRestart(w, replay.value, Exited(pid));
      InRestart(w, replay.value, Spawned(args));
      InRestart(w, replay.value, Serves(version));
      InStart(w, replay.value, args, version);
    } else {
      NoneInRestart(replay, w);
    }
  }

  lemma InEffects(replay: Replay, skipWait: bool, w: World, x: Effect)
    requires !x.Probed?
    ensures x in Effects(replay, skipWait, w) <==>
            w.first.ready && ((x == Drained && !skipWait) || x in RestartEffects(replay, w))
  {
  }

  lemma NoneInRestart(replay: Replay, w: World)
    requires replay.Failure?
    ensures RestartEffects(replay, w) == []
  {
  }

  lemma InRestart(w: World, args: seq<string>, x: Effect)
    ensures x in RestartEffects(Success(args), w) <==>
            w.locks && (x in StopEffects(w) || (GoesOn(w) && w.program && x in StartEffects(w, args)))
  {
  }

  lemma InStop(w: World, pid: nat)
    ensures Signalled(pid) in StopEffects(w) <==> w.stop in {Some(Stopped(pid)), Some(TimedOut(pid))}
    ensures Exited(pid) in StopEffects(w) <==> w.stop == Some(Stopped(pid))
    ensures forall x :: x in StopEffects(w) ==> x.Signalled? || x.Exited?
  {
  }

  lemma InStart(w: World, replayed: seq<string>, args: seq<string>, version: Option<string>)
    ensures Spawned(args) in StartEffects(w, replayed) <==>
            replayed == args && if w.start.Some? then w.start.value.Started? else w.leftBehind
    ensures Serves(version) in StartEffects(w, replayed) <==> w.start.Some? && w.start.value.version == version
    ensures forall x :: x in StartEffects(w, replayed) ==> x.Spawned? || x.Serves?
  {
  }

  /** What the restart itself reports when it goes through, with whom. */
  lemma OutcomeIs(replay: Replay, w: World)
    ensures Restart(replay, w).Some? ==>
              match Restart(replay, w).value
              case Replaced(pid, version) =>
                w.start == Some(Started(pid, version)) && w.stop.Some? && w.stop.value.Stopped?
              case FreshlyStarted(pid, version) => w.start == Some(Started(pid, version)) && w.stop == Some(NotRunning)
              case AlreadyServing(version) => w.start == Some(AlreadyRunning(version)) && GoesOn(w)
              case StopTimedOut(pid) => w.stop == Some(TimedOut(pid))
              case NotManaged => w.stop == Some(RefusedNotManaged)
              case ReplayUnavailable => replay.Failure?
  {
  }

  /** Of what was said of daemons, the last is that one exited. */
  predicate IsDown(effects: seq<Effect>) {
    effects != []
    && (effects[|effects| - 1].Exited?
        || (!effects[|effects| - 1].Serves? && IsDown(effects[..|effects| - 1])))
  }

  /** A daemon that was down, or whose restart was refused, is left exactly as it was: nothing
      was signalled and nothing started; down, not even the drain ran. */
  lemma RefusalTouchesNothing(replay: Replay, expected: string, skipWait: bool, w: World)
    ensures Contract(replay, expected, w).DaemonDown?
            <==> Effects(replay, skipWait, w) == [Probed(w.first)] && !w.first.ready
    ensures Contract(replay, expected, w).DaemonDown? || Contract(replay, expected, w).RestartRefused?
            ==> forall x :: x in Effects(replay, skipWait, w) ==> !x.Signalled? && !x.Spawned?
  {
    if Contract(replay, expected, w).RestartRefused? {
      assert RestartEffects(replay, w) == [];
    }
  }

  /** The restart comes once and after the drain: whatever touches a process stands behind the
      first probe and, unless waiting is skipped, behind the drain; at most one signal, first;
      and at most one start, after the stop, of exactly the command line being replayed. */
  lemma DrainComesFirst(replay: Replay, skipWait: bool, w: World, i: nat)
    requires i < |Effects(replay, skipWait, w)|
    requires Effects(replay, skipWait, w)[i].Signalled? || Effects(replay, skipWait, w)[i].Spawned?
    ensures var e, head := Effects(replay, skipWait, w), [Probed(w.first)] + Waiting(skipWait);
            && w.first.ready && head <= e && |head| <= i
            && (skipWait || e[1] == Drained)
            && (e[i].Signalled? ==> i == |head|)
            && (e[i].Spawned? ==> i == |head| + |StopEffects(w)| && replay == Success(e[i].args))
  {
    var head := [Probed(w.first)] + Waiting(skipWait);
    var middle := RestartEffects(replay, w);
    if w.first.ready {
      var e := Effects(replay, skipWait, w);
      assert e == head + middle + SecondProbe(replay, w);
      assert |head| <= i < |head| + |middle|;
      assert e[i] == middle[i - |head|];
    }
  }

  /** `Restarted` is said exactly when a daemon serves, by its own start or by an instance found
      serving after the stop, and a probe after that, the last thing done, reports the expected
      version. */
  lemma RestartedIff(replay: Replay, expected: string, skipWait: bool, w: World)
    ensures Contract(replay, expected, w) == Restarted(Some(expected))
            <==> && w.first.ready
                 && var e := Effects(replay, skipWait, w);
                    && |e| >= 2 && e[|e| - 1] == Probed(w.second) && e[|e| - 2].Serves?
                    && w.second.version == Some(expected)
  {
    var e := Effects(replay, skipWait, w);
    if w.first.ready && Probes(Restart(replay, w)) {
      var args := replay.value;
      assert RestartEffects(replay, w) == StopEffects(w) + StartEffects(w, args);
    }
  }

  /** So it does not mean the daemon was started by this run. It is said without anything having
      been started exactly when, after a stop that found nothing left in the way, an instance
      serving already was found and the last probe reports the expected version. */
  lemma RestartedByAnotherIff(replay: Replay, expected: string, skipWait: bool, w: World)
    ensures Contract(replay, expected, w) == Restarted(Some(expected))
            && (forall args :: Spawned(args) !in Effects(replay, skipWait, w))
            <==> && w.first.ready && replay.Success? && w.locks && GoesOn(w) && w.program
                 && w.start.Some? && w.start.value.AlreadyRunning? && w.second.version == Some(expected)
  {
    if w.first.ready && Probes(Restart(replay, w)) {
      var e, middle := Effects(replay, skipWait, w), RestartEffects(replay, w);
      var head := [Probed(w.first)] + Waiting(skipWait);
      assert e == head + middle + SecondProbe(replay, w);
      if w.start.value.Started? {
        assert middle == StopEffects(w) + [Spawned(replay.value), Serves(w.start.value.version)];
        assert e[|head| + |StopEffects(w)|] == Spawned(replay.value);
      }
    }
  }

  /** One such case: another instance took the socket after the stop. */
  lemma RestartedByAnother(expected: string, args: seq<string>, pid: nat)
    ensures var replay: Replay := Success(args);
            var w := World(Probe(true, None), Some(args), None, true, Some(Stopped(pid)), true,
                           Some(AlreadyRunning(Some(expected))), false, Probe(true, Some(expected)));
            && Contract(replay, expected, w) == Restarted(Some(expected))
            && forall other :: Spawned(other) !in Effects(replay, true, w)
  {
  }

  /** When the verdicts end with the stop, by a stop that succeeded and no verdict that anyone
      serves: exactly when no program was found to start or its start failed. The status then is an
      error, never a refusal. Who really serves by then is for `RestartMachine.ErrorLeaves`. */
  lemma LeftDownIff(replay: Replay, expected: string, skipWait: bool, w: World)
    ensures IsDown(Effects(replay, skipWait, w)) <==>
            && w.first.ready && replay.Success? && w.locks
            && w.stop.Some? && w.stop.value.Stopped? && (!w.program || w.start.None?)
    ensures IsDown(Effects(replay, skipWait, w)) ==> Contract(replay, expected, w).RestartError?
  {
    var head := [Probed(w.first)] + Waiting(skipWait);
    assert !IsDown([Probed(w.first)]);
    if w.first.ready {
      NotDownYet(w, skipWait);
      DownAfterRestart(replay, w, head);
      var upTo := head + RestartEffects(replay, w);
      if Probes(Restart(replay, w)) {
        assert Effects(replay, skipWait, w) == upTo + [Probed(w.second)];
        assert (upTo + [Probed(w.second)])[..|upTo|] == upTo;
      } else {
        assert Effects(replay, skipWait, w) == upTo;
      }
    }
  }

  lemma NotDownYet(w: World, skipWait: bool)
    ensures !IsDown([Probed(w.first)] + Waiting(skipWait))
  {
    var head := [Probed(w.first)];
    assert !IsDown(head);
    if skipWait { assert head + [] == head; } else { assert (head + [Drained])[..1] == head; }
  }

  lemma DownAfterRestart(replay: Replay, w: World, head: seq<Effect>)
    requires !IsDown(head)
    ensures IsDown(head + RestartEffects(replay, w)) <==>
            && replay.Success? && w.locks
            && w.stop.Some? && w.stop.value.Stopped? && (!w.program || w.start.None?)
  {
    var e := RestartEffects(replay, w);
    assert head + [] == head;
    if replay.Success? && w.locks {
      var args := replay.value;
      var s := StopEffects(w);
      DownAfterStop(w, head);
      if GoesOn(w) && w.program {
        var t := StartEffects(w, args);
        assert head + e == head + s + t;
        if t == [] { assert head + s + t == head + s; }
        if |t| == 1 { assert (head + s + t)[..|head + s|] == head + s; }
      } else {
        assert head + e == head + s;
      }
    }
  }

  lemma DownAfterStop(w: World, head: seq<Effect>)
    requires !IsDown(head)
    ensures IsDown(head + StopEffects(w)) <==> w.stop.Some? && w.stop.value.Stopped?
  {
    var s := StopEffects(w);
    if s == [] { assert head + s == head; }
    if |s| == 1 { assert (head + s)[..|head|] == head; }
  }
}
