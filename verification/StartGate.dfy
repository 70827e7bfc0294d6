/**
 The gate in front of `mcp.sock` at start (crates/ccteam-cli/src/main.rs): the socket task waits
 for a permit that the web task leaves when its listener is bound and again when it ends, in
 whatever way. Every step of the two tasks and of the gate may interleave.
 */
module StartGate {

  /** The web task: switched off, created but not yet run, running before its listener is
      bound, bound, and ended. */
  datatype Web = Disabled | Created | Starting | Bound | Ended

  /** The socket task: not spawned yet, spawned, registered as the waiter, woken, serving,
      ended. */
  datatype Socket = Unspawned | Spawned | Waiting | Woken | Serving | Stopped

  /** `permit` is the one permit a `Notify` can hold. The last two fields record what has
      happened. */
  datatype State = State(web: Web, socket: Socket, permit: bool, everBound: bool, everEnded: bool)

  /** How the web task ends; an abort may come before it ever ran. */
  datatype Exit = Returns | Fails | Panics | Aborted

  datatype Step =
    | WebRuns | WebBinds | WebExits(how: Exit)
    | SocketSpawns | SocketPolls | SocketResumes | SocketStops

  function Initial(webDisabled: bool): State {
    State(if webDisabled then Disabled else Created, Unspawned, false, false, false)
  }

  predicate Enabled(s: State, step: Step) {
    match step
    case WebRuns => s.web.Created?
    case WebBinds => s.web.Starting?
    case WebExits(how) => (s.web.Created? && how.Aborted?) || s.web.Starting? || s.web.Bound?
    case SocketSpawns => s.socket.Unspawned?
    case SocketPolls => s.socket.Spawned?
    case SocketResumes => s.socket.Woken?
    case SocketStops => s.socket.Serving?
  }

  /** `notify_one`: wakes the waiter, else leaves the permit. */
  function NotifyOne(s: State): State {
    if s.socket.Waiting? then s.(socket := Woken) else s.(permit := true)
  }

  /** `notified().await` when first polled: takes the permit, else registers. Without a web task
      there is no gate. */
  function Poll(s: State): State {
    if s.web.Disabled? then s.(socket := Serving)
    else if s.permit then s.(socket := Serving, permit := false)
    else s.(socket := Waiting)
  }

  function Do(s: State, step: Step): State
    requires Enabled(s, step)
  {
    match step
    case WebRuns => s.(web := Starting)
    case WebBinds => NotifyOne(s.(web := Bound, everBound := true))
    case WebExits(_) => NotifyOne(s.(web := Ended, everEnded := true))
    case SocketSpawns => s.(socket := Spawned)
    case SocketPolls => Poll(s)
    case SocketResumes => s.(socket := Serving)
    case SocketStops => s.(socket := Stopped)
  }

  predicate Allowed(s: State, run: seq<Step>)
    decreases |run|
  {
    run == [] || (Enabled(s, run[0]) && Allowed(Do(s, run[0]), run[1..]))
  }

  function After(s: State, run: seq<Step>): State
    requires Allowed(s, run)
    decreases |run|
  {
    if run == [] then s else After(Do(s, run[0]), run[1..])
  }

  predicate Past(s: State) {
    s.socket.Woken? || s.socket.Serving? || s.socket.Stopped?
  }

  predicate Open(s: State) {
    s.web.Disabled? || s.everBound || s.everEnded
  }

  /** A socket task past the gate found it open; a waiting one found no permit and none has
      come; and an open gate holds a permit for a task that has not come yet. */
  ghost predicate Valid(s: State) {
    && (s.web.Bound? ==> s.everBound) && (s.web.Ended? <==> s.everEnded)
    && (s.everBound ==> s.web.Bound? || s.web.Ended?)
    && (Past(s) ==> Open(s))
    && (s.socket.Waiting? ==> !Open(s))
    && (Open(s) && !s.web.Disabled? && (s.socket.Unspawned? || s.socket.Spawned?) ==> s.permit)
    && (s.permit ==> s.everBound || s.everEnded)
  }

  lemma StepKeepsValid(s: State, step: Step)
    requires Valid(s) && Enabled(s, step)
    ensures Valid(Do(s, step))
  {
  }

  lemma {:induction false} RunKeepsValid(s: State, run: seq<Step>)
    requires Valid(s) && Allowed(s, run)
    ensures Valid(After(s, run))
    decreases |run|
  {
    if run != [] {
      StepKeepsValid(s, run[0]);
      RunKeepsValid(Do(s, run[0]), run[1..]);
    }
  }

  function WebEvents(run: seq<Step>): bool {
    run != [] && (run[0].WebBinds? || run[0].WebExits? || WebEvents(run[1..]))
  }

  /** The ordinary start: the web task binds while the socket task waits, and wakes it. */
  lemma OrdinaryStart()
    ensures var run := [WebRuns, SocketSpawns, SocketPolls, WebBinds, SocketResumes];
            Allowed(Initial(false), run)
            && After(Initial(false), run) == State(Bound, Serving, false, true, false)
  {
    var s := Initial(false);
    var run := [WebRuns, SocketSpawns, SocketPolls, WebBinds, SocketResumes];
    assert run[1..] == [SocketSpawns, SocketPolls, WebBinds, SocketResumes];
    assert run[1..][1..] == [SocketPolls, WebBinds, SocketResumes];
    assert run[1..][1..][1..] == [WebBinds, SocketResumes];
    assert run[1..][1..][1..][1..] == [SocketResumes];
    var s3 := Do(Do(Do(s, WebRuns), SocketSpawns), SocketPolls);
    assert s3 == State(Starting, Waiting, false, false, false);
    assert Allowed(s3, [WebBinds, SocketResumes]);
    assert After(s3, [WebBinds, SocketResumes]) == State(Bound, Serving, false, true, false);
  }

  lemma {:induction false} OpenedByWeb(s: State, run: seq<Step>)
    requires Allowed(s, run)
    ensures Open(After(s, run)) <==> Open(s) || WebEvents(run)
    decreases |run|
  {
    if run != [] { OpenedByWeb(Do(s, run[0]), run[1..]); }
  }

  /** Main result on order: in every interleaving the socket serves only once the web listener
      was bound or the web task had ended in some way, or if there is no web task. */
  lemma ServesOnlyWhenOpen(webDisabled: bool, run: seq<Step>)
    requires Allowed(Initial(webDisabled), run)
    ensures After(Initial(webDisabled), run).socket.Serving? ==> webDisabled || WebEvents(run)
  {
    RunKeepsValid(Initial(webDisabled), run);
    OpenedByWeb(Initial(webDisabled), run);
  }

  /** The steps of the socket task alone from here to serving. */
  function ToServing(s: State): seq<Step> {
    match s.socket
    case Unspawned => [SocketSpawns, SocketPolls]
    case Spawned => [SocketPolls]
    case Woken => [SocketResumes]
    case _ => []
  }

  /** Main result on liveness: no wake-up is lost. Once the gate is open, at whatever point the
      signal came, the socket task gets to serving by its own steps alone. */
  lemma NoLostWakeUp(webDisabled: bool, run: seq<Step>)
    requires Allowed(Initial(webDisabled), run) && (webDisabled || WebEvents(run))
    ensures var s := After(Initial(webDisabled), run);
            && Allowed(s, ToServing(s))
            && (After(s, ToServing(s)).socket.Serving? || s.socket.Stopped?)
  {
    RunKeepsValid(Initial(webDisabled), run);
    OpenedByWeb(Initial(webDisabled), run);
    DisabledStays(Initial(webDisabled), run);
    var s := After(Initial(webDisabled), run);
    if s.socket.Unspawned? {
      assert [SocketSpawns, SocketPolls][1..] == [SocketPolls];
    }
  }

  lemma {:induction false} DisabledStays(s: State, run: seq<Step>)
    requires Allowed(s, run)
    ensures After(s, run).web.Disabled? <==> s.web.Disabled?
    decreases |run|
  {
    if run != [] { DisabledStays(Do(s, run[0]), run[1..]); }
  }

  /** The gate can wait forever only on a web task that neither binds nor ends. */
  lemma BlockedOnlyByWeb(webDisabled: bool, run: seq<Step>)
    requires Allowed(Initial(webDisabled), run)
    ensures var s := After(Initial(webDisabled), run);
            s.socket.Waiting? ==> (s.web.Created? || s.web.Starting?) && !WebEvents(run)
                                  && Enabled(s, WebExits(Aborted)) && Past(Do(s, WebExits(Aborted)))
  {
    RunKeepsValid(Initial(webDisabled), run);
    OpenedByWeb(Initial(webDisabled), run);
  }

  // ---- Without the permit

  /** A notification that only wakes a task already waiting keeps nothing for later. */
  function DoWithout(s: State, step: Step): State
    requires Enabled(s, step)
  {
    Do(s, step).(permit := false)
  }

  predicate AllowedWithout(s: State, run: seq<Step>)
    decreases |run|
  {
    run == [] || (Enabled(s, run[0]) && AllowedWithout(DoWithout(s, run[0]), run[1..]))
  }

  function AfterWithout(s: State, run: seq<Step>): State
    requires AllowedWithout(s, run)
    decreases |run|
  {
    if run == [] then s else AfterWithout(DoWithout(s, run[0]), run[1..])
  }

  lemma {:induction false} StaysLost(s: State, run: seq<Step>)
    requires s.web.Bound? && !s.permit && !Past(s) && AllowedWithout(s, run)
    requires forall step :: step in run ==> !step.WebExits?
    ensures !Past(AfterWithout(s, run))
    decreases |run|
  {
    if run != [] { StaysLost(DoWithout(s, run[0]), run[1..]); }
  }

  /** Why the notification keeps a permit: without one, a listener that is bound before the socket
      task waits leaves it closed in every run, for as long as the web task lives. */
  lemma WithoutAPermitItIsLost(early: seq<Step>, run: seq<Step>)
    requires forall step :: step in early ==> step.WebRuns? || step.SocketSpawns?
    requires forall step :: step in run ==> !step.WebExits?
    requires AllowedWithout(Initial(false), early + [WebBinds] + run)
    ensures var s := AfterWithout(Initial(false), early + [WebBinds] + run);
            s.everBound && !s.socket.Serving?
  {
    EarlyThenLost(Initial(false), early, run);
  }

  lemma {:induction false} EarlyThenLost(s: State, early: seq<Step>, run: seq<Step>)
    requires (s.web.Created? || s.web.Starting?) && (s.socket.Unspawned? || s.socket.Spawned?) && !s.permit
    requires forall step :: step in early ==> step.WebRuns? || step.SocketSpawns?
    requires forall step :: step in run ==> !step.WebExits?
    requires AllowedWithout(s, early + [WebBinds] + run)
    ensures AfterWithout(s, early + [WebBinds] + run).everBound && !Past(AfterWithout(s, early + [WebBinds] + run))
    decreases |early|
  {
    var all := early + [WebBinds] + run;
    if early == [] {
      assert all[0] == WebBinds && all[1..] == run;
      StaysLost(DoWithout(s, WebBinds), run);
      StaysBound(DoWithout(s, WebBinds), run);
    } else {
      assert all[0] == early[0] && all[1..] == early[1..] + [WebBinds] + run;
      EarlyThenLost(DoWithout(s, early[0]), early[1..], run);
    }
  }

  lemma {:induction false} StaysBound(s: State, run: seq<Step>)
    requires s.everBound && AllowedWithout(s, run)
    ensures AfterWithout(s, run).everBound
    decreases |run|
  {
    if run != [] { StaysBound(DoWithout(s, run[0]), run[1..]); }
  }
}
