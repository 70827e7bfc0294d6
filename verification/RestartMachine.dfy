/**
 The restart after an update on a host where other things happen: daemons appear, take the
 socket and exit between any two steps of the updater
 (crates/ccteam-cli/src/update.rs, crates/ccteam-cli/src/daemon_cli.rs,
 crates/ccteam-core/src/daemon.rs).
 */
module RestartMachine {
  import opened Wrappers
  import opened Json
  import opened LauncherArgv
  import C = RestartContract

  // ---- The host

  /** A daemon may answer a probe without naming its version. */
  datatype Daemon = Daemon(argv: seq<string>, version: Option<string>)

  datatype Record = Record(pid: nat, args: Option<seq<string>>)

  /** Live daemons by process id, which of them serves the socket, the launcher's pid record, and
      the next process id; a record also holds the start time, so ids are never taken for one
      another. */
  datatype Host = Host(live: map<nat, Daemon>, server: Option<nat>, record: Option<Record>, next: nat)

  ghost predicate Sound(h: Host) {
    && (h.server.Some? ==> h.server.value in h.live)
    && (forall p :: p in h.live ==> p < h.next)
  }

  /** What others do; the child the updater starts binds and exits like any other. A daemon that
      binds removes whatever is at the socket's path first, so it takes over from the one serving;
      one that shuts down removes the path whoever serves there. */
  datatype Event = Appears(d: Daemon) | Binds(pid: nat) | Unlinks | Exits(pid: nat)

  function Happen(h: Host, e: Event): Host {
    match e
    case Appears(d) => h.(live := h.live[h.next := d], next := h.next + 1)
    case Binds(p) => if p in h.live then h.(server := Some(p)) else h
    case Unlinks => h.(server := None)
    case Exits(p) =>
      h.(live := h.live - {p}, server := if h.server == Some(p) then None else h.server)
  }

  function Probe(h: Host): C.Probe {
    if h.server.Some? && h.server.value in h.live then C.Probe(true, h.live[h.server.value].version)
    else C.Probe(false, None)
  }

  // ---- The updater

  /** The version it expects and the one the installed program really has, whether waiting is
      skipped, how addresses are read, and what the health endpoint answers on a host. */
  datatype Config = Config(
    expected: string, installed: Option<string>, skipWait: bool, net: Net, report: Host -> Option<Json>)

  datatype Pc =
    | Begin
    | Waiting
    | Planning
    | Locking(args: seq<string>)
    | Stopping(args: seq<string>)
    | Refusing(args: seq<string>)
    | AwaitExit(args: seq<string>, pid: nat)
    | Starting(args: seq<string>)
    | Spawning(args: seq<string>)
    | AwaitReady(args: seq<string>, child: nat)
    | Verifying(spawned: Option<nat>)
    | Done(status: C.Status)

  /** `answers` collects what the outside has answered so far, and `asked` is the process that was
      sent the signal to end. */
  datatype State = State(host: Host, pc: Pc, answers: C.World, asked: Option<nat>)

  /** A step of the updater that goes well, one whose probe of the socket is not answered in time,
      or one that fails or itself runs out of time. */
  datatype Act = Other(e: Event) | Go | Slow | Fail

  const NO_ANSWER := C.Probe(false, None)

  function RecordedArgs(h: Host): Option<seq<string>> {
    if h.record.Some? then h.record.value.args else None
  }

  function First(c: Config, s: State, p: C.Probe): State {
    s.(answers := s.answers.(first := p),
       pc := if !p.ready then Done(C.DaemonDown) else if c.skipWait then Planning else Waiting)
  }

  function Plan(c: Config, s: State): State {
    var recorded, health := RecordedArgs(s.host), c.report(s.host);
    s.(answers := s.answers.(recorded := recorded, health := health),
       pc := match PlanReplay(c.net, recorded, health)
             case Failure(_) => Done(C.RestartRefused)
             case Success(args) => Locking(args))
  }

  /** `stop_managed_with`: signal the recorded process if it lives, else sweep the record. */
  function Stop(s: State): State
    requires s.pc.Stopping?
  {
    var r := s.host.record;
    if r.Some? && r.value.pid in s.host.live then
      s.(pc := AwaitExit(s.pc.args, r.value.pid), asked := Some(r.value.pid))
    else s.(host := s.host.(record := None), pc := Refusing(s.pc.args))
  }

  function RefuseOrStart(s: State, p: C.Probe): State
    requires s.pc.Refusing?
  {
    if p.ready then
      s.(answers := s.answers.(stop := Some(C.RefusedNotManaged)), pc := Done(C.RestartRefused))
    else s.(answers := s.answers.(stop := Some(C.NotRunning)), pc := Starting(s.pc.args))
  }

  function PollExit(s: State): State
    requires s.pc.AwaitExit?
  {
    if s.pc.pid in s.host.live then s
    else
      s.(host := s.host.(record := None), answers := s.answers.(stop := Some(C.Stopped(s.pc.pid))),
         pc := Starting(s.pc.args))
  }

  /** `start_managed` up to the decision to spawn. */
  function Start(s: State, p: C.Probe): State
    requires s.pc.Starting?
  {
    if p.ready then s.(answers := s.answers.(start := Some(C.AlreadyRunning(p.version))), pc := Verifying(None))
    else s.(pc := Spawning(s.pc.args))
  }

  function Spawn(c: Config, s: State): State
    requires s.pc.Spawning?
  {
    var h, child := s.host, s.host.next;
    s.(host := h.(live := h.live[child := Daemon(s.pc.args, c.installed)],
                  record := Some(Record(child, Some(s.pc.args))), next := child + 1),
       pc := AwaitReady(s.pc.args, child))
  }

  /** Ready is whoever answers on the socket; a child that is gone is an error. */
  function PollReady(s: State, p: C.Probe): State
    requires s.pc.AwaitReady?
  {
    if p.ready then
      s.(answers := s.answers.(start := Some(C.Started(s.pc.child, p.version))), pc := Verifying(Some(s.pc.child)))
    else if s.pc.child !in s.host.live then
      s.(host := s.host.(record := None), answers := s.answers.(start := None, leftBehind := false),
         pc := Done(C.RestartError))
    else s
  }

  function Verify(c: Config, s: State, p: C.Probe): State {
    s.(answers := s.answers.(second := p), pc := Done(C.Verdict(c.expected, p)))
  }

  /** One step; `p` is what a probe of the socket yields if the step makes one. */
  function Step(c: Config, s: State, p: C.Probe): State {
    match s.pc
    case Begin => First(c, s, p)
    case Waiting => s.(pc := Planning)
    case Planning => Plan(c, s)
    case Locking(args) => s.(answers := s.answers.(locks := true), pc := Stopping(args))
    case Stopping(_) => Stop(s)
    case Refusing(_) => RefuseOrStart(s, p)
    case AwaitExit(_, _) => PollExit(s)
    case Starting(_) => Start(s.(answers := s.answers.(program := true)), p)
    case Spawning(_) => Spawn(c, s)
    case AwaitReady(_, _) => PollReady(s, p)
    case Verifying(_) => Verify(c, s, p)
    case Done(_) => s
  }

  /** The lock, the signal, the wait for the exit, the search for the program, the spawn and the
      wait for readiness can fail. */
  function StepFails(s: State): State {
    var error := s.(pc := Done(C.RestartError));
    match s.pc
    case Locking(_) => error.(answers := s.answers.(locks := false))
    case Stopping(_) => error.(answers := s.answers.(stop := None))
    case AwaitExit(_, pid) => error.(answers := s.answers.(stop := Some(C.TimedOut(pid))))
    case Starting(_) => error.(answers := s.answers.(program := false))
    case Spawning(_) => error.(answers := s.answers.(start := None, leftBehind := false))
    case AwaitReady(_, _) => error.(answers := s.answers.(start := None, leftBehind := true))
    case _ => s
  }

  function Do(c: Config, s: State, a: Act): State {
    match a
    case Other(e) => s.(host := Happen(s.host, e))
    case Go => Step(c, s, Probe(s.host))
    case Slow => Step(c, s, NO_ANSWER)
    case Fail => StepFails(s)
  }

  function Run(c: Config, s: State, acts: seq<Act>): State
    decreases |acts|
  {
    if acts == [] then s else Run(c, Do(c, s, acts[0]), acts[1..])
  }

  lemma {:induction false} RunOn(c: Config, s: State, a: seq<Act>, b: seq<Act>)
    ensures Run(c, s, a + b) == Run(c, Run(c, s, a), b)
    decreases |a|
  {
    if a == [] {
      assert a + b == b;
    } else {
      assert (a + b)[1..] == a[1..] + b;
      RunOn(c, Do(c, s, a[0]), a[1..], b);
    }
  }

  const NO_ANSWERS := C.World(
    NO_ANSWER, None, None, false, None, false, None, false, NO_ANSWER)

  function Initial(h: Host): State {
    State(h, Begin, NO_ANSWERS, None)
  }

  // ---- Every run answers to the contract

  /** Before the signal, and where the updater ends without having got to it. */
  predicate Untouching(pc: Pc) {
    || pc.Begin? || pc.Waiting? || pc.Planning? || pc.Locking? || pc.Stopping? || pc.Refusing?
    || (pc.Done? && (pc.status.DaemonDown? || pc.status.RestartRefused?))
  }

  predicate AfterStop(pc: Pc) {
    pc.Starting? || pc.Spawning? || pc.AwaitReady? || pc.Verifying?
  }

  /** What the answers so far say at each point. */
  ghost predicate Valid(c: Config, s: State) {
    var w := s.answers;
    var replay := PlanReplay(c.net, w.recorded, w.health);
    && Sound(s.host)
    && (!s.pc.Begin? && !s.pc.Done? ==> w.first.ready)
    && (Untouching(s.pc) ==> s.asked.None?)
    && (C.GoesOn(w) ==> AfterStop(s.pc) || s.pc.Done?)
    && (s.asked.Some? ==> s.asked.value < s.host.next && (AfterStop(s.pc) ==> s.asked.value !in s.host.live))
    && (w.stop.Some? && w.stop.value.Stopped? ==>
          s.asked == Some(w.stop.value.pid) && w.stop.value.pid !in s.host.live)
    && match s.pc
       case Begin => true
       case Waiting => true
       case Planning => true
       case Locking(args) => replay == Success(args)
       case Stopping(args) => replay == Success(args) && w.locks
       case Refusing(args) => replay == Success(args) && w.locks && s.host.record.None?
       case AwaitExit(args, pid) => replay == Success(args) && w.locks && s.asked == Some(pid)
       case Starting(args) => replay == Success(args) && w.locks && C.GoesOn(w) && s.host.record.None?
       case Spawning(args) => replay == Success(args) && w.locks && C.GoesOn(w) && w.program && s.host.record.None?
       case AwaitReady(args, child) =>
         && replay == Success(args) && w.locks && C.GoesOn(w) && w.program
         && s.host.record == Some(Record(child, Some(args))) && child < s.host.next
         && (child in s.host.live ==> s.host.live[child] == Daemon(args, c.installed))
       case Verifying(spawned) =>
         && replay.Success? && C.Probes(C.Restart(replay, w))
         && (spawned.None? ==> s.host.record.None?)
         && (spawned.Some? ==>
               && s.host.record == Some(Record(spawned.value, Some(replay.value))) && spawned.value < s.host.next
               && (spawned.value in s.host.live ==> s.host.live[spawned.value] == Daemon(replay.value, c.installed)))
       case Done(status) =>
         && C.Contract(replay, c.expected, w) == status
         && (status.RestartError? && C.GoesOn(w) && s.host.record.Some? ==> w.leftBehind)
  }

  lemma OtherKeepsValid(c: Config, s: State, e: Event)
    requires Valid(c, s)
    ensures Valid(c, Do(c, s, Other(e)))
  {
  }

  lemma FailKeepsValid(c: Config, s: State)
    requires Valid(c, s)
    ensures Valid(c, StepFails(s))
  {
  }

  lemma EarlyStepKeepsValid(c: Config, s: State, p: C.Probe)
    requires Valid(c, s) && !AfterStop(s.pc)
    ensures Valid(c, Step(c, s, p))
  {
  }

  lemma StartStepKeepsValid(c: Config, s: State, p: C.Probe)
    requires Valid(c, s) && (s.pc.Starting? || s.pc.Spawning?)
    ensures Valid(c, Step(c, s, p))
  {
  }

  lemma LastStepKeepsValid(c: Config, s: State, p: C.Probe)
    requires Valid(c, s) && (s.pc.AwaitReady? || s.pc.Verifying?)
    ensures Valid(c, Step(c, s, p))
  {
  }

  lemma GoKeepsValid(c: Config, s: State, p: C.Probe)
    requires Valid(c, s)
    ensures Valid(c, Step(c, s, p))
  {
    if s.pc.Starting? || s.pc.Spawning? {
      StartStepKeepsValid(c, s, p);
    } else if AfterStop(s.pc) {
      LastStepKeepsValid(c, s, p);
    } else {
      EarlyStepKeepsValid(c, s, p);
    }
  }

  lemma StepKeepsValid(c: Config, s: State, a: Act)
    requires Valid(c, s)
    ensures Valid(c, Do(c, s, a))
  {
    match a
    case Other(e) => OtherKeepsValid(c, s, e);
    case Go => GoKeepsValid(c, s, Probe(s.host));
    case Slow => GoKeepsValid(c, s, NO_ANSWER);
    case Fail => FailKeepsValid(c, s);
  }

  lemma {:induction false} RunKeepsValid(c: Config, s: State, acts: seq<Act>)
    requires Valid(c, s)
    ensures Valid(c, Run(c, s, acts))
    decreases |acts|
  {
    if acts != [] {
      StepKeepsValid(c, s, acts[0]);
      RunKeepsValid(c, Do(c, s, acts[0]), acts[1..]);
    }
  }

  /** Main result: in every interleaving that ends, the status is what the contract says of the
      answers the run got. */
  lemma RunMeetsContract(c: Config, h: Host, acts: seq<Act>)
    requires Sound(h)
    ensures var s := Run(c, Initial(h), acts);
            s.pc.Done? ==>
              C.Contract(PlanReplay(c.net, s.answers.recorded, s.answers.health), c.expected, s.answers) == s.pc.status
  {
    RunKeepsValid(c, Initial(h), acts);
  }

  // ---- What a status means for the host

  /** The same daemons live and serve. */
  predicate SameDaemons(h: Host, g: Host) {
    h.live == g.live && h.server == g.server && h.next == g.next
  }

  /** The host without the updater. */
  function OthersOnly(h: Host, acts: seq<Act>): Host
    decreases |acts|
  {
    if acts == [] then h
    else OthersOnly(if acts[0].Other? then Happen(h, acts[0].e) else h, acts[1..])
  }

  lemma {:induction false} UntouchedSoFar(c: Config, s: State, g: Host, acts: seq<Act>)
    requires Untouching(s.pc) ==> SameDaemons(s.host, g)
    ensures Untouching(Run(c, s, acts).pc) ==> SameDaemons(Run(c, s, acts).host, OthersOnly(g, acts))
    decreases |acts|
  {
    if acts != [] {
      UntouchedSoFar(c, Do(c, s, acts[0]), if acts[0].Other? then Happen(g, acts[0].e) else g, acts[1..]);
    }
  }

  /** Main result on refusals: a run that says the daemon was down or the restart refused has
      signalled nobody, and the same daemons live and serve as if there had been no updater. */
  lemma RefusalLeavesTheHost(c: Config, h: Host, acts: seq<Act>)
    requires Sound(h)
    ensures var s := Run(c, Initial(h), acts);
            s.pc.Done? && (s.pc.status.DaemonDown? || s.pc.status.RestartRefused?) ==>
              s.asked.None? && SameDaemons(s.host, OthersOnly(h, acts))
  {
    RunKeepsValid(c, Initial(h), acts);
    UntouchedSoFar(c, Initial(h), h, acts);
  }

  lemma LastProbeSaw(c: Config, s: State, a: Act)
    requires Valid(c, s) && !s.pc.Done? && Do(c, s, a).pc.Done? && Do(c, s, a).pc.status.Restarted?
    ensures a.Go? && s.pc.Verifying? && s.host.server.Some?
    ensures s.host.live[s.host.server.value].version == Some(c.expected)
    ensures s.asked.Some? ==> s.asked.value !in s.host.live && s.asked != s.host.server
  {
  }

  /** The probe a run that says `Restarted` has seen: some daemon with the expected version serves
      at that moment, and it is not the one that was signalled, which is gone. */
  lemma {:induction false} RestartedSaw(c: Config, s: State, acts: seq<Act>) returns (k: nat)
    requires Valid(c, s) && !s.pc.Done?
    requires Run(c, s, acts).pc.Done? && Run(c, s, acts).pc.status.Restarted?
    ensures k < |acts| && acts[k].Go?
    ensures var v := Run(c, s, acts[..k]);
            && Valid(c, v) && v.pc.Verifying? && v.host.server.Some?
            && v.host.live[v.host.server.value].version == Some(c.expected)
            && (v.asked.Some? ==> v.asked.value !in v.host.live && v.asked != v.host.server)
    decreases |acts|
  {
    var next := Do(c, s, acts[0]);
    StepKeepsValid(c, s, acts[0]);
    if next.pc.Done? {
      DoneStays(c, next, acts[1..]);
      LastProbeSaw(c, s, acts[0]);
      k := 0;
      assert acts[..0] == [];
    } else {
      var k' := RestartedSaw(c, next, acts[1..]);
      k := k' + 1;
      assert acts[..k][1..] == acts[1..][..k'];
    }
  }

  lemma {:induction false} DoneStays(c: Config, s: State, acts: seq<Act>)
    requires s.pc.Done?
    ensures Run(c, s, acts).pc == s.pc
    decreases |acts|
  {
    if acts != [] { DoneStays(c, Do(c, s, acts[0]), acts[1..]); }
  }

  // ---- Who serves after the stop

  /** Since the stop the record names the updater's child, or nobody. */
  predicate IsChild(h: Host, pid: nat) {
    h.record.Some? && h.record.value.pid == pid
  }

  predicate Serves(h: Host, child: bool) {
    h.server.Some? && IsChild(h, h.server.value) == child
  }

  /** A live daemon, the child or another one, takes the socket. */
  predicate Takes(h: Host, a: Act, child: bool) {
    a.Other? && a.e.Binds? && a.e.pid in h.live && IsChild(h, a.e.pid) == child
  }

  /** Until the run is over the daemon does not exit, the socket is not removed, and no other live
      daemon binds. */
  predicate Stays(c: Config, s: State, acts: seq<Act>, pid: nat)
    decreases |acts|
  {
    || acts == []
    || (&& acts[0] != Other(Exits(pid)) && acts[0] != Other(Unlinks)
        && !(acts[0].Other? && acts[0].e.Binds? && acts[0].e.pid != pid && acts[0].e.pid in s.host.live)
        && Stays(c, Do(c, s, acts[0]), acts[1..], pid))
  }

  /** It takes it and stays. */
  predicate TakenForGood(c: Config, s: State, acts: seq<Act>, child: bool)
    decreases |acts|
  {
    && acts != []
    && (|| (Takes(s.host, acts[0], child) && Stays(c, Do(c, s, acts[0]), acts[1..], acts[0].e.pid))
        || TakenForGood(c, Do(c, s, acts[0]), acts[1..], child))
  }

  /** The daemon serving at first stays. */
  predicate Keeps(c: Config, s: State, acts: seq<Act>) {
    s.host.server.Some? && Stays(c, s, acts, s.host.server.value)
  }

  /** No step of the updater after the stop gives the socket away or mistakes a daemon. */
  lemma StepKeepsServer(c: Config, s: State, a: Act, child: bool)
    requires Valid(c, s) && (AfterStop(s.pc) || s.pc.Done?)
    ensures AfterStop(Do(c, s, a).pc) || Do(c, s, a).pc.Done?
    ensures !a.Other? ==> (Serves(Do(c, s, a).host, child) <==> Serves(s.host, child))
    ensures !a.Other? ==> Do(c, s, a).host.server == s.host.server
  {
  }

  /** Main result on who serves: the child, or another daemon, serves at the end of a run after
      the stop exactly when it served at its beginning and stayed, or took the socket, free or
      not, for good. */
  lemma {:induction false} ServesIff(c: Config, s: State, acts: seq<Act>, child: bool)
    requires Valid(c, s) && (AfterStop(s.pc) || s.pc.Done?)
    ensures Serves(Run(c, s, acts).host, child)
            <==> (Serves(s.host, child) && Keeps(c, s, acts)) || TakenForGood(c, s, acts, child)
    decreases |acts|
  {
    if acts != [] {
      var a, next, rest := acts[0], Do(c, s, acts[0]), acts[1..];
      StepKeepsValid(c, s, a);
      StepKeepsServer(c, s, a, child);
      ServesIff(c, next, rest, child);
    }
  }

  lemma StopGoesOn(c: Config, s: State, a: Act)
    requires Valid(c, s) && !C.GoesOn(s.answers)
    ensures C.GoesOn(Do(c, s, a).answers) ==> Do(c, s, a).pc.Starting?
  {
  }

  /** A run that gets past the stop comes through `Starting`. */
  lemma {:induction false} PassesStarting(c: Config, s: State, acts: seq<Act>) returns (j: nat)
    requires Valid(c, s) && !C.GoesOn(s.answers) && C.GoesOn(Run(c, s, acts).answers)
    ensures j <= |acts| && Run(c, s, acts[..j]).pc.Starting? && Valid(c, Run(c, s, acts[..j]))
    ensures Run(c, s, acts) == Run(c, Run(c, s, acts[..j]), acts[j..])
    decreases |acts|
  {
    var next := Do(c, s, acts[0]);
    StepKeepsValid(c, s, acts[0]);
    StopGoesOn(c, s, acts[0]);
    if C.GoesOn(next.answers) {
      j := 1;
      assert acts[..1] == [acts[0]];
      RunOne(c, s, acts[0]);
    } else {
      var j' := PassesStarting(c, next, acts[1..]);
      j := j' + 1;
      assert acts[..j][1..] == acts[1..][..j'];
      assert acts[j..] == acts[1..][j'..];
    }
  }

  lemma RunOne(c: Config, s: State, a: Act)
    ensures Run(c, s, [a]) == Do(c, s, a)
  {
    assert [a][1..] == [];
  }

  /** Main result on restarts: the daemon whose version was taken for the new one is the updater's
      child, with exactly the command line being replayed and on record, if and only if no other
      daemon was left serving by the stop for good, and none took the socket for good. */
  lemma RestartedIsOurs(c: Config, s: State, acts: seq<Act>) returns (k: nat)
    requires Valid(c, s) && s.pc.Starting?
    requires Run(c, s, acts).pc.Done? && Run(c, s, acts).pc.status.Restarted?
    ensures k < |acts| && acts[k].Go?
    ensures var v := Run(c, s, acts[..k]);
            var replay := PlanReplay(c.net, v.answers.recorded, v.answers.health);
            && v.pc.Verifying? && v.host.server.Some? && replay.Success?
            && v.host.server.value in v.host.live
            && v.host.live[v.host.server.value].version == Some(c.expected)
            && (v.host.server == v.pc.spawned
                <==> !Keeps(c, s, acts[..k]) && !TakenForGood(c, s, acts[..k], false))
            && (v.host.server == v.pc.spawned ==>
                  && v.host.live[v.host.server.value] == Daemon(replay.value, Some(c.expected))
                  && v.host.record == Some(Record(v.host.server.value, Some(replay.value))))
  {
    k := RestartedSaw(c, s, acts);
    ServesIff(c, s, acts[..k], false);
  }

  /** The same of whole runs: every one that says `Restarted` comes past the stop after `j` acts and
      to its last probe after `k`, and what that probe sees is the updater's child exactly when
      nothing between the two speaks against it. */
  lemma RunRestartsOurs(c: Config, h: Host, acts: seq<Act>) returns (j: nat, k: nat)
    requires Sound(h)
    requires Run(c, Initial(h), acts).pc.Done? && Run(c, Initial(h), acts).pc.status.Restarted?
    ensures j <= k < |acts|
    ensures var s, v, between := Run(c, Initial(h), acts[..j]), Run(c, Initial(h), acts[..k]), acts[j..k];
            && s.pc.Starting? && v.pc.Verifying? && acts[k].Go? && v.host.server.Some?
            && (v.host.server == v.pc.spawned
                <==> !Keeps(c, s, between) && !TakenForGood(c, s, between, false))
  {
    RunKeepsValid(c, Initial(h), acts);
    j := PassesStarting(c, Initial(h), acts);
    var n := RestartedIsOurs(c, Run(c, Initial(h), acts[..j]), acts[j..]);
    k := j + n;
    assert acts[j..][..n] == acts[j..k] && acts[..k] == acts[..j] + acts[j..k];
    RunOn(c, Initial(h), acts[..j], acts[j..k]);
  }

  /** Main result on failed restarts: in every run that got past the stop and ends in an error the
      stopped daemon is gone for good, and nobody serves exactly when no daemon left serving by
      the stop stayed and neither the child nor another daemon took the socket for good. The
      child can be the one serving only when the wait for it ran out of time. */
  lemma ErrorLeaves(c: Config, h: Host, acts: seq<Act>) returns (j: nat)
    requires Sound(h)
    requires Run(c, Initial(h), acts).pc == Done(C.RestartError) && C.GoesOn(Run(c, Initial(h), acts).answers)
    ensures j <= |acts| && Run(c, Initial(h), acts[..j]).pc.Starting?
    ensures var s, t, rest := Run(c, Initial(h), acts[..j]), Run(c, Initial(h), acts), acts[j..];
            && (t.answers.stop.value.Stopped? ==>
                  t.asked == Some(t.answers.stop.value.pid) && t.asked.value !in t.host.live)
            && (t.host.server.None?
                <==> && !Keeps(c, s, rest)
                     && !TakenForGood(c, s, rest, true) && !TakenForGood(c, s, rest, false))
            && (Serves(t.host, true) <==> TakenForGood(c, s, rest, true))
            && (Serves(t.host, true) ==> t.answers.leftBehind)
  {
    RunKeepsValid(c, Initial(h), acts);
    j := PassesStarting(c, Initial(h), acts);
    var s := Run(c, Initial(h), acts[..j]);
    ServesIff(c, s, acts[j..], true);
    ServesIff(c, s, acts[j..], false);
  }

  /** A managed daemon whose restart is due. */
  function OldHost(args: seq<string>): Host {
    Host(map[0 := Daemon(args, Some("old"))], Some(0), Some(Record(0, Some(args))), 1)
  }

  /** Up to the stop: the daemon is asked to end and does. */
  const STOPPING := [Go, Go, Go, Go, Other(Exits(0)), Go]

  /** A daemon that is not the updater's comes and takes the socket. */
  function Intruder(other: Daemon): seq<Act> {
    [Other(Appears(other)), Other(Binds(1))]
  }

  lemma OldExits(c: Config, args: seq<string>) returns (s: State)
    requires c.skipWait
    ensures s == Run(c, Initial(OldHost(args)), STOPPING)
    ensures s.pc == Starting(args) && s.host == Host(map[], None, None, 1)
    ensures s.answers.stop == Some(C.Stopped(0)) && s.asked == Some(0)
  {
    var h := OldHost(args);
    RunTwo(c, Initial(h), Go, Go, [Go, Go, Other(Exits(0)), Go]);
    var s2 := Do(c, Do(c, Initial(h), Go), Go);
    RunTwo(c, s2, Go, Go, [Other(Exits(0)), Go]);
    var s4 := Do(c, Do(c, s2, Go), Go);
    assert s4.pc == AwaitExit(args, 0) && s4.host == h;
    RunTwo(c, s4, Other(Exits(0)), Go, []);
    s := Do(c, Do(c, s4, Other(Exits(0))), Go);
    assert s.host.live == map[];
  }

  lemma IntruderServes(c: Config, s: State, other: Daemon)
    requires s.host == Host(map[], None, None, 1)
    ensures Run(c, s, Intruder(other)) == s.(host := Host(map[1 := other], Some(1), None, 2))
  {
    assert Intruder(other) == Intruder(other) + [];
    RunTwo(c, s, Other(Appears(other)), Other(Binds(1)), []);
    assert Happen(s.host, Appears(other)).live == map[1 := other];
  }

  /** `Restarted` is said of another daemon in three ways. It is found serving by the start, which
      then starts nothing. */
  lemma RestartedIsNotOurs(c: Config, args: seq<string>, other: Daemon)
    requires c.skipWait && other.version == Some(c.expected)
    ensures var s := Run(c, Initial(OldHost(args)), STOPPING + Intruder(other) + [Go, Go]);
            && s.pc == Done(C.Restarted(Some(c.expected))) && s.host.server == Some(1)
            && s.host.live == map[1 := other] && s.host.record.None?
  {
    var s := OldExits(c, args);
    IntruderServes(c, s, other);
    RunOn(c, Initial(OldHost(args)), STOPPING, Intruder(other));
    RunOn(c, Initial(OldHost(args)), STOPPING + Intruder(other), [Go, Go]);
    assert [Go, Go] == [Go, Go] + [];
    RunTwo(c, Run(c, s, Intruder(other)), Go, Go, []);
  }

  /** Or it takes the socket once the start has found it free: the start then calls its own child
      started and writes it down, while the other daemon serves. */
  lemma StartedIsNotServing(c: Config, args: seq<string>, other: Daemon)
    requires c.skipWait && other.version == Some(c.expected)
    ensures var s := Run(c, Initial(OldHost(args)), STOPPING + [Go] + Intruder(other) + [Go, Go, Go]);
            && s.pc == Done(C.Restarted(Some(c.expected))) && s.host.server == Some(1)
            && s.host.live == map[1 := other, 2 := Daemon(args, c.installed)]
            && s.host.record == Some(Record(2, Some(args)))
            && s.answers.start == Some(C.Started(2, Some(c.expected)))
  {
    var s0, acts := Initial(OldHost(args)), STOPPING + [Go] + Intruder(other);
    var s := OldExits(c, args);
    RunOn(c, s0, STOPPING, [Go]);
    RunOne(c, s, Go);
    var s7 := Do(c, s, Go);
    RunOn(c, s0, STOPPING + [Go], Intruder(other));
    IntruderServes(c, s7, other);
    RunOn(c, s0, acts, [Go, Go, Go]);
    var s9 := Run(c, s7, Intruder(other));
    assert [Go, Go, Go] == [Go, Go] + [Go];
    RunTwo(c, s9, Go, Go, [Go]);
    RunOne(c, Do(c, Do(c, s9, Go), Go), Go);
  }

  /** Or it takes over from the child itself, between the poll that found the child serving and the
      last probe. */
  lemma TakenOver(c: Config, args: seq<string>, other: Daemon)
    requires c.skipWait && other.version == Some(c.expected)
    ensures var acts := [Go, Other(Appears(other)), Go, Other(Binds(2)), Go, Other(Binds(1)), Go];
            var s := Run(c, Initial(OldHost(args)), STOPPING + acts);
            && s.pc == Done(C.Restarted(Some(c.expected))) && s.host.server == Some(1)
            && s.host.live == map[1 := other, 2 := Daemon(args, c.installed)]
            && s.host.record == Some(Record(2, Some(args)))
            && s.answers.start == Some(C.Started(2, c.installed))
  {
    var acts := [Go, Other(Appears(other)), Go, Other(Binds(2)), Go, Other(Binds(1)), Go];
    var s := OldExits(c, args);
    RunOn(c, Initial(OldHost(args)), STOPPING, acts);
    var mid := [Go, Other(Binds(2))] + [Go, Other(Binds(1)), Go];
    assert acts == [Go, Other(Appears(other))] + mid;
    RunTwo(c, s, Go, Other(Appears(other)), mid);
    var s2 := Do(c, Do(c, s, Go), Other(Appears(other)));
    assert s2.host.live == map[1 := other];
    ChildThenOther(c, s2, other);
  }

  lemma ChildThenOther(c: Config, s: State, other: Daemon)
    requires s.pc.Spawning? && s.host == Host(map[1 := other], None, None, 2) && other.version == Some(c.expected)
    ensures var t := Run(c, s, [Go, Other(Binds(2))] + [Go, Other(Binds(1)), Go]);
            var child := Daemon(s.pc.args, c.installed);
            && t.pc == Done(C.Restarted(Some(c.expected)))
            && t.host == Host(map[1 := other, 2 := child], Some(1), Some(Record(2, Some(s.pc.args))), 3)
            && t.answers.start == Some(C.Started(2, c.installed))
  {
    RunTwo(c, s, Go, Other(Binds(2)), [Go, Other(Binds(1)), Go]);
    var s4 := Do(c, Do(c, s, Go), Other(Binds(2)));
    assert [Go, Other(Binds(1)), Go] == [Go, Other(Binds(1))] + [Go];
    RunTwo(c, s4, Go, Other(Binds(1)), [Go]);
    RunOne(c, Do(c, Do(c, s4, Go), Other(Binds(1))), Go);
  }

  // ---- The updater with a host that answers

  /** The daemon that serves, if one does. */
  predicate IsServing(h: Host, pid: nat) {
    h.server == Some(pid) && pid in h.live
  }

  /** The steps to the point where the replay is planned. */
  function UpToPlan(c: Config): seq<Act> {
    if c.skipWait then [Go] else [Go, Go]
  }

  /** No daemon serves, and the run is over at once. */
  lemma NobodyServes(c: Config, h: Host)
    requires forall p :: !IsServing(h, p)
    ensures Run(c, Initial(h), [Go]).pc == Done(C.DaemonDown) && Run(c, Initial(h), [Go]).host == h
  {
    assert h.server.Some? ==> !IsServing(h, h.server.value);
    RunOne(c, Initial(h), Go);
  }

  lemma ComesToPlan(c: Config, h: Host, pid: nat)
    requires IsServing(h, pid)
    ensures var s := Run(c, Initial(h), UpToPlan(c)); s.pc == Planning && s.host == h && s.asked == None
  {
    RunOne(c, Initial(h), Go);
    if !c.skipWait {
      RunOn(c, Initial(h), [Go], [Go]);
      RunOne(c, Do(c, Initial(h), Go), Go);
      assert [Go] + [Go] == UpToPlan(c);
    }
  }

  /** The recorded command line, and what the health endpoint says, is all the replay goes by. */
  function Replay(c: Config, h: Host): C.Replay {
    PlanReplay(c.net, if h.record.Some? then h.record.value.args else None, c.report(h))
  }

  /** A daemon serves but nothing can be replayed: refused, with the host as it was. */
  lemma NothingToReplay(c: Config, h: Host, pid: nat)
    requires IsServing(h, pid) && Replay(c, h).Failure?
    ensures var s := Run(c, Initial(h), UpToPlan(c) + [Go]);
            s.pc == Done(C.RestartRefused) && s.host == h && s.asked == None
  {
    ComesToPlan(c, h, pid);
    RunOn(c, Initial(h), UpToPlan(c), [Go]);
    RunOne(c, Run(c, Initial(h), UpToPlan(c)), Go);
  }

  lemma ComesToStop(c: Config, h: Host, pid: nat)
    requires IsServing(h, pid) && Replay(c, h).Success?
    ensures var s := Run(c, Initial(h), UpToPlan(c) + [Go, Go]);
            s.pc == Stopping(Replay(c, h).value) && s.host == h && s.asked == None
  {
    ComesToPlan(c, h, pid);
    RunOn(c, Initial(h), UpToPlan(c), [Go, Go]);
    assert [Go, Go] == [Go, Go] + [];
    RunTwo(c, Run(c, Initial(h), UpToPlan(c)), Go, Go, []);
  }

  /** No process on record lives while a daemon serves: refused, the record swept, nobody signalled. */
  lemma NotManaged(c: Config, h: Host, pid: nat)
    requires IsServing(h, pid) && Replay(c, h).Success?
    requires h.record.Some? ==> h.record.value.pid !in h.live
    ensures var s := Run(c, Initial(h), UpToPlan(c) + [Go, Go] + [Go, Go]);
            && s.pc == Done(C.RestartRefused) && s.host == h.(record := None) && s.asked == None
            && s.answers.stop == Some(C.RefusedNotManaged)
  {
    ComesToStop(c, h, pid);
    RunOn(c, Initial(h), UpToPlan(c) + [Go, Go], [Go, Go]);
    assert [Go, Go] == [Go, Go] + [];
    RunTwo(c, Run(c, Initial(h), UpToPlan(c) + [Go, Go]), Go, Go, []);
  }

  function Without(h: Host, pid: nat): Host {
    Host(h.live - {pid}, if h.server == Some(pid) then None else h.server, None, h.next)
  }

  /** The process on record is asked to end and does. */
  lemma Managed(c: Config, h: Host, pid: nat)
    requires IsServing(h, pid) && Replay(c, h).Success? && h.record.Some? && h.record.value.pid in h.live
    ensures var m := h.record.value.pid;
            var s := Run(c, Initial(h), UpToPlan(c) + [Go, Go] + ([Go, Other(Exits(m))] + [Go]));
            && s.pc == Starting(Replay(c, h).value) && s.host == Without(h, m) && s.asked == Some(m)
            && s.answers.stop == Some(C.Stopped(m))
  {
    var m := h.record.value.pid;
    ComesToStop(c, h, pid);
    var s := Run(c, Initial(h), UpToPlan(c) + [Go, Go]);
    RunOn(c, Initial(h), UpToPlan(c) + [Go, Go], [Go, Other(Exits(m))] + [Go]);
    RunTwo(c, s, Go, Other(Exits(m)), [Go]);
    RunOne(c, Do(c, Do(c, s, Go), Other(Exits(m))), Go);
  }

  /** From there: another daemon found serving is taken as it is, and nothing is started. */
  lemma FoundServing(c: Config, s: State, pid: nat)
    requires s.pc.Starting? && IsServing(s.host, pid)
    ensures var t, version := Run(c, s, [Go, Go]), s.host.live[pid].version;
            && t.host == s.host && t.answers.start == Some(C.AlreadyRunning(version))
            && t.pc == Done(if version == Some(c.expected) then C.Restarted(version)
                            else C.VersionSkew(version, c.expected))
  {
    assert [Go, Go] == [Go, Go] + [];
    RunTwo(c, s, Go, Go, []);
  }

  /** Else a child is started with the replayed command line and put on record; once it binds it is
      what the last probe sees. */
  lemma ChildServes(c: Config, s: State)
    requires s.pc.Starting? && s.host.server.None?
    ensures var t, child := Run(c, s, [Go, Go] + ([Other(Binds(s.host.next)), Go] + [Go])), s.host.next;
            && t.host == Host(s.host.live[child := Daemon(s.pc.args, c.installed)], Some(child),
                              Some(Record(child, Some(s.pc.args))), child + 1)
            && t.answers.start == Some(C.Started(child, c.installed))
            && t.pc == Done(if c.installed == Some(c.expected) then C.Restarted(c.installed)
                            else C.VersionSkew(c.installed, c.expected))
  {
    var rest := [Other(Binds(s.host.next)), Go] + [Go];
    RunTwo(c, s, Go, Go, rest);
    var s2 := Do(c, Do(c, s, Go), Go);
    RunTwo(c, s2, Other(Binds(s.host.next)), Go, [Go]);
    RunOne(c, Do(c, Do(c, s2, Other(Binds(s.host.next))), Go), Go);
  }

  /** Waiting for the child: as long as it lives and nobody answers the wait goes on; once it is gone
      the run ends in an error with the record swept and nothing left behind. */
  lemma ChildAwaited(c: Config, s: State, a: Act)
    requires s.pc.AwaitReady? && (a.Slow? || (a.Go? && forall p :: !IsServing(s.host, p)))
    ensures if s.pc.child in s.host.live then Do(c, s, a) == s
            else
              && Do(c, s, a).pc == Done(C.RestartError) && Do(c, s, a).host == s.host.(record := None)
              && Do(c, s, a).answers.start == None && !Do(c, s, a).answers.leftBehind
  {
    assert a.Go? && s.host.server.Some? ==> !IsServing(s.host, s.host.server.value);
  }

  /** A probe that goes unanswered takes a serving daemon for none: at first the daemon is called
      down, an unmanaged one is passed over, a child is started beside it, and at last the version is
      not known. */
  lemma ProbedTooSlow(c: Config, s: State)
    ensures var t := Do(c, s, Slow);
            && (s.pc.Begin? ==> t.pc == Done(C.DaemonDown))
            && (s.pc.Refusing? ==> t.pc == Starting(s.pc.args) && t.answers.stop == Some(C.NotRunning))
            && (s.pc.Starting? ==> t.pc == Spawning(s.pc.args))
            && (s.pc.Verifying? ==> t.pc == Done(C.VersionSkew(None, c.expected)))
            && (s.pc in {Begin, Waiting, Planning} || s.pc.Refusing? || s.pc.Starting? || s.pc.Verifying?
                ==> t.host == s.host)
  {
  }

  /** A step that fails is an error that leaves the host alone and is told by what could not be
      done. */
  lemma FailedAt(c: Config, s: State)
    ensures var t := Do(c, s, Fail);
            var can := s.pc.Locking? || s.pc.Stopping? || s.pc.AwaitExit? || s.pc.Starting? || s.pc.Spawning?
                       || s.pc.AwaitReady?;
            && t.host == s.host && t.asked == s.asked
            && (if can then t.pc == Done(C.RestartError) else t == s)
            && (s.pc.Locking? ==> t.answers == s.answers.(locks := false))
            && (s.pc.Stopping? ==> t.answers == s.answers.(stop := None))
            && (s.pc.AwaitExit? ==> t.answers == s.answers.(stop := Some(C.TimedOut(s.pc.pid))))
            && (s.pc.Starting? ==> t.answers == s.answers.(program := false))
            && (s.pc.Spawning? ==> t.answers == s.answers.(start := None, leftBehind := false))
            && (s.pc.AwaitReady? ==> t.answers == s.answers.(start := None, leftBehind := true))
  {
  }

  /** A failed restart is no proof that nothing serves either. */
  lemma ErrorYetServed(c: Config, args: seq<string>, other: Daemon)
    requires c.skipWait
    ensures var s := Run(c, Initial(OldHost(args)), STOPPING + Intruder(other) + [Fail]);
            && s.pc == Done(C.RestartError) && s.answers.stop == Some(C.Stopped(0))
            && s.host.server == Some(1) && s.host.live == map[1 := other]
  {
    var s := OldExits(c, args);
    RunOn(c, Initial(OldHost(args)), STOPPING, Intruder(other));
    IntruderServes(c, s, other);
    RunOn(c, Initial(OldHost(args)), STOPPING + Intruder(other), [Fail]);
    RunOne(c, Run(c, s, Intruder(other)), Fail);
  }

  lemma RunTwo(c: Config, s: State, a: Act, b: Act, rest: seq<Act>)
    ensures Run(c, s, [a, b] + rest) == Run(c, Do(c, Do(c, s, a), b), rest)
  {
    assert ([a, b] + rest)[1..] == [b] + rest && ([b] + rest)[1..] == rest;
  }
}
