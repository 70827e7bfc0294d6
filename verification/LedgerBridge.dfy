/**
 The ledger bridge (crates/ccteam-cli/src/flow_bridge.rs): a flow run queues envelope rows, one
 worker thread posts them, and dropping the bridge closes the queue and waits for the worker.
 The run, the worker and the daemon's answers interleave freely.
 */
module LedgerBridge {
  import opened LedgerRows

  // ---- The machine

  datatype Answer = Accepted | Refused | Unreachable

  datatype Attempt = Attempt(row: Row, answer: Answer)

  /** The worker thread: not started; waiting for a row; waiting for the daemon's answer;
      discarding rows, because there is no daemon or it was unreachable; ended. */
  datatype Worker = NoThread | Posting | InFlight(row: Row) | Draining | Ended

  datatype Bridge = Live | Joining | Dropped

  datatype State = State(
    bridge: Bridge,
    sinks: nat,
    worker: Worker,
    queue: seq<Row>,
    attempts: seq<Attempt>,
    events: seq<Event>,
    discarded: seq<Row>)

  datatype Action =
    | NewSink | Report(event: Event) | DropSink | DropBridge
    | Take | Answered(answer: Answer) | Discard | End | Joined

  predicate IsMain(a: Action) {
    a.NewSink? || a.Report? || a.DropSink? || a.DropBridge?
  }

  predicate SendersGone(s: State) {
    s.sinks == 0 && !s.bridge.Live?
  }

  predicate Enabled(s: State, a: Action) {
    match a
    case NewSink => s.bridge.Live?
    case Report(_) => s.sinks > 0
    case DropSink => s.sinks > 0
    case DropBridge => s.bridge.Live?
    case Take => s.worker.Posting? && s.queue != []
    case Answered(_) => s.worker.InFlight?
    case Discard => s.worker.Draining? && s.queue != []
    case End => (s.worker.Posting? || s.worker.Draining?) && s.queue == [] && SendersGone(s)
    case Joined => s.bridge.Joining? && (s.worker.Ended? || s.worker.NoThread?)
  }

  /** What a sink sends: nothing without a worker thread. */
  function Sends(s: State, e: Event): seq<Row> {
    if s.worker.NoThread? then [] else RowFor(e, LatestBrake(s.events))
  }

  function Do(s: State, a: Action): State
    requires Enabled(s, a)
  {
    match a
    case NewSink => s.(sinks := s.sinks + 1)
    case Report(e) => s.(queue := s.queue + Sends(s, e), events := s.events + [e])
    case DropSink => s.(sinks := s.sinks - 1)
    case DropBridge => s.(bridge := Joining)
    case Take => s.(worker := InFlight(s.queue[0]), queue := s.queue[1..])
    case Answered(answer) =>
      s.(attempts := s.attempts + [Attempt(s.worker.row, answer)],
         worker := if answer.Unreachable? then Draining else Posting)
    case Discard => s.(discarded := s.discarded + [s.queue[0]], queue := s.queue[1..])
    case End => s.(worker := Ended)
    case Joined => s.(bridge := Dropped)
  }

  /** A fresh bridge: with a daemon to post to, without one, or without even a thread. */
  function Fresh(worker: Worker): State {
    State(Live, 0, worker, [], [], [], [])
  }

  predicate CanStart(worker: Worker) {
    worker.Posting? || worker.Draining? || worker.NoThread?
  }

  predicate Allowed(s: State, run: seq<Action>)
    decreases |run|
  {
    run == [] || (Enabled(s, run[0]) && Allowed(Do(s, run[0]), run[1..]))
  }

  function After(s: State, run: seq<Action>): State
    requires Allowed(s, run)
    decreases |run|
  {
    if run == [] then s else After(Do(s, run[0]), run[1..])
  }

  // ---- The invariant

  function AttemptedRows(attempts: seq<Attempt>): seq<Row> {
    if attempts == [] then [] else AttemptedRows(attempts[..|attempts| - 1]) + [attempts[|attempts| - 1].row]
  }

  /** Rows the worker has taken off the queue. */
  function Handled(s: State): seq<Row> {
    AttemptedRows(s.attempts) + (if s.worker.InFlight? then [s.worker.row] else []) + s.discarded
  }

  ghost predicate OnlyLastUnreachable(attempts: seq<Attempt>) {
    forall i :: 0 <= i < |attempts| - 1 ==> !attempts[i].answer.Unreachable?
  }

  predicate GaveUp(attempts: seq<Attempt>) {
    attempts != [] && attempts[|attempts| - 1].answer.Unreachable?
  }

  /** Kept by every step; `start` is the mode the worker started in. */
  ghost predicate Valid(s: State, start: Worker) {
    && CanStart(start)
    && (if start.NoThread? then s.worker.NoThread? && Handled(s) + s.queue == []
        else !s.worker.NoThread? && Handled(s) + s.queue == Rows(s.events))
    && OnlyLastUnreachable(s.attempts)
    && (s.worker.Posting? || s.worker.InFlight? ==> start.Posting? && !GaveUp(s.attempts))
    && (!GaveUp(s.attempts) && start.Posting? ==> s.discarded == [] && !s.worker.Draining?)
    && (!start.Posting? ==> s.attempts == [])
    && (s.worker.Ended? ==> SendersGone(s) && s.queue == [])
    && (s.bridge.Dropped? ==> s.worker.Ended? || s.worker.NoThread?)
  }

  lemma SendKeepsOrder(s: State, e: Event)
    requires !s.worker.NoThread? && Handled(s) + s.queue == Rows(s.events)
    ensures Handled(s) + (s.queue + Sends(s, e)) == Rows(s.events + [e])
  {
    assert (s.events + [e])[..|s.events|] == s.events;
    assert Handled(s) + (s.queue + Sends(s, e)) == (Handled(s) + s.queue) + Sends(s, e);
  }

  lemma TakeKeepsOrder(s: State)
    requires s.worker.Posting? && s.queue != [] && s.discarded == []
    ensures var s' := Do(s, Take); Handled(s') + s'.queue == Handled(s) + s.queue
  {
    assert s.queue == [s.queue[0]] + s.queue[1..];
  }

  lemma AnswerKeepsOrder(s: State, answer: Answer)
    requires s.worker.InFlight? && s.discarded == []
    ensures var s' := Do(s, Answered(answer)); Handled(s') + s'.queue == Handled(s) + s.queue
  {
    var s' := Do(s, Answered(answer));
    assert s'.attempts[..|s'.attempts| - 1] == s.attempts;
  }

  lemma DiscardKeepsOrder(s: State)
    requires s.worker.Draining? && s.queue != []
    ensures var s' := Do(s, Discard); Handled(s') + s'.queue == Handled(s) + s.queue
  {
    assert s.queue == [s.queue[0]] + s.queue[1..];
    assert Handled(Do(s, Discard)) == Handled(s) + [s.queue[0]];
  }

  lemma StepKeepsValid(s: State, a: Action, start: Worker)
    requires Valid(s, start) && Enabled(s, a)
    ensures Valid(Do(s, a), start)
  {
    match a {
      case Report(e) =>
        if !start.NoThread? { SendKeepsOrder(s, e); }
      case Take => TakeKeepsOrder(s);
      case Answered(answer) => AnswerKeepsOrder(s, answer);
      case Discard => DiscardKeepsOrder(s);
      case _ =>
        var s' := Do(s, a);
        assert Handled(s') == Handled(s);
    }
  }

  lemma {:induction false} RunKeepsValid(s: State, run: seq<Action>, start: Worker)
    requires Valid(s, start) && Allowed(s, run)
    ensures Valid(After(s, run), start)
    decreases |run|
  {
    if run != [] {
      StepKeepsValid(s, run[0], start);
      RunKeepsValid(Do(s, run[0]), run[1..], start);
    }
  }

  // ---- What is posted

  /** Main result: in every interleaving the rows posted are, in order, a prefix of the rows the
      events mean; at most one post ever finds the daemon unreachable and it is the last; and a
      worker that ended without one has posted every row exactly once. */
  lemma PostsInOrder(start: Worker, run: seq<Action>)
    requires CanStart(start) && Allowed(Fresh(start), run)
    ensures var s := After(Fresh(start), run);
            && Valid(s, start)
            && AttemptedRows(s.attempts) <= Rows(s.events)
            && OnlyLastUnreachable(s.attempts)
            && (start.Posting? && s.worker.Ended? && !GaveUp(s.attempts) ==>
                  AttemptedRows(s.attempts) == Rows(s.events))
            && (s.worker.Ended? ==> AttemptedRows(s.attempts) + s.discarded == Rows(s.events))
  {
    RunKeepsValid(Fresh(start), run, start);
    ValidMeansInOrder(After(Fresh(start), run), start);
  }

  lemma ValidMeansInOrder(s: State, start: Worker)
    requires Valid(s, start)
    ensures AttemptedRows(s.attempts) <= Rows(s.events)
    ensures s.worker.Ended? ==> AttemptedRows(s.attempts) + s.discarded == Rows(s.events)
    ensures start.Posting? && s.worker.Ended? && !GaveUp(s.attempts) ==> AttemptedRows(s.attempts) == Rows(s.events)
  {
    FirstIsPrefix(AttemptedRows(s.attempts), if s.worker.InFlight? then [s.worker.row] else [], s.discarded, s.queue);
  }

  lemma FirstIsPrefix<T>(a: seq<T>, b: seq<T>, c: seq<T>, d: seq<T>)
    ensures a <= a + b + c + d
    ensures b == [] && d == [] ==> a + b + c + d == a + c
    ensures b == [] && c == [] && d == [] ==> a + b + c + d == a
  {
  }

  /** A send never finds the worker gone. */
  lemma SendsReachTheWorker(s: State, start: Worker, e: Event)
    requires Valid(s, start) && s.sinks > 0
    ensures Enabled(s, Report(e)) && !s.worker.Ended?
  {
  }

  ghost predicate WorkersOwn(run: seq<Action>) {
    forall a :: a in run ==> a.Take? || a.Answered? || a.Discard?
  }

  /** The worker's loop over the rows it receives, in the source's form: it posts until the
      daemon is unreachable and then discards the rest. `run` is the run of the machine it is:
      its steps are the worker's own, and it ends with the queue dealt with. */
  method SubmitLoop(ghost s: State, rows: seq<Row>, answers: seq<Answer>)
    returns (attempts: seq<Attempt>, discarded: seq<Row>, ghost run: seq<Action>)
    requires |answers| == |rows| && s.worker.Posting? && s.queue == rows
    ensures |attempts| <= |rows| && forall i :: 0 <= i < |attempts| ==> attempts[i] == Attempt(rows[i], answers[i])
    ensures forall i :: 0 <= i < |attempts| - 1 ==> !answers[i].Unreachable?
    ensures |attempts| < |rows| ==> GaveUp(attempts)
    ensures discarded == rows[|attempts|..]
    ensures Allowed(s, run) && WorkersOwn(run)
    ensures After(s, run) == s.(queue := [], attempts := s.attempts + attempts, discarded := s.discarded + discarded,
                                worker := if GaveUp(attempts) then Draining else Posting)
  {
    attempts, run := PostLoop(s, rows, answers);
    discarded := [];
    assert s.discarded + discarded == s.discarded;
    if attempts != [] && attempts[|attempts| - 1].answer.Unreachable? {
      ghost var rest;
      ghost var t := After(s, run);
      discarded, rest := DrainLoop(t, rows[|attempts|..]);
      AfterConcat(s, run, rest);
      run := run + rest;
    }
  }

  /** Posting until the rows are through or the daemon is unreachable. */
  method PostLoop(ghost s: State, rows: seq<Row>, answers: seq<Answer>)
    returns (attempts: seq<Attempt>, ghost run: seq<Action>)
    requires |answers| == |rows| && s.worker.Posting? && s.queue == rows
    ensures |attempts| <= |rows| && forall i :: 0 <= i < |attempts| ==> attempts[i] == Attempt(rows[i], answers[i])
    ensures forall i :: 0 <= i < |attempts| - 1 ==> !answers[i].Unreachable?
    ensures |attempts| < |rows| ==> GaveUp(attempts)
    ensures Allowed(s, run) && WorkersOwn(run)
    ensures After(s, run) == s.(queue := rows[|attempts|..], attempts := s.attempts + attempts,
                                worker := if GaveUp(attempts) then Draining else Posting)
  {
    attempts, run := [], [];
    assert s.attempts + attempts == s.attempts && rows[0..] == rows;
    var i, unreachable := 0, false;
    while i < |rows| && !unreachable
      invariant i <= |rows| && attempts == Attempts(rows, answers, i)
      invariant unreachable == GaveUp(attempts)
      invariant forall k :: 0 <= k < i && (k < i - 1 || !unreachable) ==> !answers[k].Unreachable?
      invariant Allowed(s, run) && WorkersOwn(run)
      invariant After(s, run) == s.(queue := rows[i..], attempts := s.attempts + attempts,
                                    worker := if unreachable then Draining else Posting)
    {
      PostNext(s, run, rows, i, attempts, answers[i]);
      run := run + [Take, Answered(answers[i])];
      attempts := attempts + [Attempt(rows[i], answers[i])];
      unreachable := answers[i].Unreachable?;
      i := i + 1;
    }
    AttemptsAre(rows, answers, i);
  }

  /** The first `n` posts. */
  function Attempts(rows: seq<Row>, answers: seq<Answer>, n: nat): seq<Attempt>
    requires n <= |rows| == |answers|
  {
    if n == 0 then [] else Attempts(rows, answers, n - 1) + [Attempt(rows[n - 1], answers[n - 1])]
  }

  lemma {:induction false} AttemptsAre(rows: seq<Row>, answers: seq<Answer>, n: nat)
    requires n <= |rows| == |answers|
    ensures |Attempts(rows, answers, n)| == n
    ensures forall k :: 0 <= k < n ==> Attempts(rows, answers, n)[k] == Attempt(rows[k], answers[k])
  {
    if n > 0 { AttemptsAre(rows, answers, n - 1); }
  }

  lemma PostNext(s: State, run: seq<Action>, rows: seq<Row>, i: nat, attempts: seq<Attempt>, answer: Answer)
    requires i < |rows| && s.worker.Posting? && Allowed(s, run)
    requires After(s, run) == s.(queue := rows[i..], attempts := s.attempts + attempts)
    ensures var more := run + [Take, Answered(answer)];
            && Allowed(s, more)
            && After(s, more) == s.(queue := rows[i + 1..],
                                    attempts := s.attempts + (attempts + [Attempt(rows[i], answer)]),
                                    worker := if answer.Unreachable? then Draining else Posting)
  {
    hide After, Allowed, Do;
    OnePost(After(s, run), answer);
    AfterConcat(s, run, [Take, Answered(answer)]);
    assert rows[i..][1..] == rows[i + 1..];
    assert s.attempts + attempts + [Attempt(rows[i], answer)] == s.attempts + (attempts + [Attempt(rows[i], answer)]);
  }

  /** Taking the remaining rows without posting them. */
  method DrainLoop(ghost s: State, rows: seq<Row>) returns (discarded: seq<Row>, ghost run: seq<Action>)
    requires s.worker.Draining? && s.queue == rows
    ensures discarded == rows && Allowed(s, run) && WorkersOwn(run)
    ensures After(s, run) == s.(queue := [], discarded := s.discarded + rows)
  {
    discarded, run := [], [];
    assert s.discarded + discarded == s.discarded && rows[0..] == rows;
    for i := 0 to |rows|
      invariant discarded == rows[..i] && Allowed(s, run) && WorkersOwn(run)
      invariant After(s, run) == s.(queue := rows[i..], discarded := s.discarded + rows[..i])
    {
      OneDiscard(After(s, run));
      AfterConcat(s, run, [Discard]);
      run := run + [Discard];
      assert rows[i..][1..] == rows[i + 1..] && rows[..i] + [rows[i]] == rows[..i + 1];
      assert s.discarded + rows[..i] + [rows[i]] == s.discarded + rows[..i + 1];
      discarded := discarded + [rows[i]];
    }
    assert rows[..|rows|] == rows;
  }

  lemma OneDiscard(s: State)
    requires s.worker.Draining? && s.queue != []
    ensures Allowed(s, [Discard])
    ensures After(s, [Discard]) == s.(discarded := s.discarded + [s.queue[0]], queue := s.queue[1..])
  {
    assert [Discard][1..] == [];
  }

  lemma OnePost(s: State, answer: Answer)
    requires s.worker.Posting? && s.queue != []
    ensures var steps := [Take, Answered(answer)];
            && Allowed(s, steps)
            && After(s, steps) == s.(attempts := s.attempts + [Attempt(s.queue[0], answer)], queue := s.queue[1..],
                                     worker := if answer.Unreachable? then Draining else Posting)
  {
    var taken := Do(s, Take);
    assert [Take, Answered(answer)][1..] == [Answered(answer)] && [Answered(answer)][1..] == [];
    assert Allowed(taken, [Answered(answer)]);
    assert After(taken, [Answered(answer)]) == Do(taken, Answered(answer));
  }

  lemma {:induction false} AfterConcat(s: State, a: seq<Action>, b: seq<Action>)
    requires Allowed(s, a)
    ensures Allowed(s, a + b) <==> Allowed(After(s, a), b)
    ensures Allowed(s, a + b) ==> After(s, a + b) == After(After(s, a), b)
    decreases |a|
  {
    if a == [] {
      assert a + b == b;
    } else {
      assert (a + b)[1..] == a[1..] + b;
      AfterConcat(Do(s, a[0]), a[1..], b);
    }
  }

  // ---- Shutting down

  /** Bounds the steps left once nobody can send any more. */
  function Measure(s: State): nat {
    3 * |s.queue| + (if s.worker.InFlight? then 2 else 0)
    + (if s.worker.Ended? || s.worker.NoThread? then 0 else 1) + (if s.bridge.Dropped? then 0 else 1)
  }

  lemma StepShrinks(s: State, a: Action)
    requires Enabled(s, a)
    ensures !IsMain(a) ==> Measure(Do(s, a)) < Measure(s)
    ensures IsMain(a) ==> Measure(Do(s, a)) <= Measure(s) + 3
    ensures SendersGone(s) ==> SendersGone(Do(s, a)) && !IsMain(a)
  {
  }

  /** Every run after the last sender is gone is shorter than the measure. */
  lemma {:induction false} ShutdownTerminates(s: State, run: seq<Action>)
    requires SendersGone(s) && Allowed(s, run)
    ensures |run| <= Measure(s)
    decreases |run|
  {
    if run != [] {
      StepShrinks(s, run[0]);
      ShutdownTerminates(Do(s, run[0]), run[1..]);
    }
  }

  /** And it never stops short of the join. */
  lemma ShutdownNeverStops(s: State, start: Worker) returns (a: Action)
    requires Valid(s, start) && SendersGone(s) && !s.bridge.Dropped?
    ensures Enabled(s, a)
  {
    a := match s.worker
         case NoThread => Joined
         case Posting => if s.queue == [] then End else Take
         case InFlight(_) => Answered(Accepted)
         case Draining => if s.queue == [] then End else Discard
         case Ended => Joined;
  }

  /** When the join waits on somebody else: exactly when the queue is empty, the worker is
      waiting for a row, and a sink is still held. */
  lemma JoinBlocksIff(s: State, start: Worker)
    requires Valid(s, start) && s.bridge.Joining?
    ensures (forall a :: Enabled(s, a) ==> IsMain(a))
            <==> s.sinks > 0 && s.queue == [] && (s.worker.Posting? || s.worker.Draining?)
  {
    if s.sinks == 0 {
      var a := ShutdownNeverStops(s, start);
      StepShrinks(s, a);
      assert Enabled(s, a) && !IsMain(a);
    } else if s.worker.InFlight? {
      assert Enabled(s, Answered(Accepted));
    } else if s.worker.NoThread? || s.worker.Ended? {
      assert Enabled(s, Joined);
    } else if s.queue != [] {
      assert Enabled(s, if s.worker.Posting? then Take else Discard);
    }
  }

  // ---- A flow run around it

  /** What the main thread does: an error before the sink exists, or the run with its events;
      on every path locals go in reverse order of declaration, so the sink inside the run's
      configuration goes before the bridge. */
  datatype Exit = BeforeSink | WithSink(events: seq<Event>)

  function Reports(events: seq<Event>): seq<Action> {
    if events == [] then [] else [Report(events[0])] + Reports(events[1..])
  }

  function FlowRun(exit: Exit): seq<Action> {
    match exit
    case BeforeSink => [DropBridge]
    case WithSink(events) => [NewSink] + Reports(events) + [DropSink, DropBridge]
  }

  /** The main thread's part of an interleaving. */
  function MainPart(run: seq<Action>): seq<Action> {
    if run == [] then [] else (if IsMain(run[0]) then [run[0]] else []) + MainPart(run[1..])
  }

  datatype Main = Main(live: bool, sinks: int, events: seq<Event>)

  function MainOf(s: State): Main {
    Main(s.bridge.Live?, s.sinks, s.events)
  }

  function MainDo(m: Main, a: Action): Main {
    match a
    case NewSink => m.(sinks := m.sinks + 1)
    case Report(e) => m.(events := m.events + [e])
    case DropSink => m.(sinks := m.sinks - 1)
    case DropBridge => m.(live := false)
    case _ => m
  }

  function MainAfter(m: Main, acts: seq<Action>): Main
    decreases |acts|
  {
    if acts == [] then m else MainAfter(MainDo(m, acts[0]), acts[1..])
  }

  lemma {:induction false} MainFollows(s: State, run: seq<Action>)
    requires Allowed(s, run)
    ensures MainOf(After(s, run)) == MainAfter(MainOf(s), MainPart(run))
    decreases |run|
  {
    if run != [] {
      MainFollows(Do(s, run[0]), run[1..]);
      if IsMain(run[0]) {
        assert MainPart(run)[1..] == MainPart(run[1..]);
        assert MainOf(Do(s, run[0])) == MainDo(MainOf(s), run[0]);
      } else {
        assert MainPart(run) == MainPart(run[1..]);
      }
    }
  }

  lemma {:induction false} MainAfterConcat(m: Main, a: seq<Action>, b: seq<Action>)
    ensures MainAfter(m, a + b) == MainAfter(MainAfter(m, a), b)
    decreases |a|
  {
    if a == [] {
      assert a + b == b;
    } else {
      assert (a + b)[1..] == a[1..] + b;
      MainAfterConcat(MainDo(m, a[0]), a[1..], b);
    }
  }

  lemma {:induction false} ReportsTell(m: Main, events: seq<Event>)
    ensures MainAfter(m, Reports(events)) == m.(events := m.events + events)
    decreases |events|
  {
    if events != [] {
      ReportsTell(MainDo(m, Report(events[0])), events[1..]);
      assert m.events + [events[0]] + events[1..] == m.events + events;
      assert Reports(events)[1..] == Reports(events[1..]);
    }
  }

  function EventsOf(exit: Exit): seq<Event> {
    if exit.WithSink? then exit.events else []
  }

  lemma FlowRunEnds(exit: Exit)
    ensures MainAfter(Main(true, 0, []), FlowRun(exit)) == Main(false, 0, EventsOf(exit))
  {
    if exit.WithSink? {
      var m := Main(true, 0, []);
      MainAfterConcat(m, [NewSink] + Reports(exit.events), [DropSink, DropBridge]);
      MainAfterConcat(m, [NewSink], Reports(exit.events));
      assert MainAfter(m, [NewSink]) == Main(true, 1, []);
      ReportsTell(Main(true, 1, []), exit.events);
      assert [] + exit.events == exit.events;
      assert [DropSink, DropBridge][1..] == [DropBridge];
      assert MainAfter(Main(true, 1, exit.events), [DropSink, DropBridge]) == Main(false, 0, exit.events);
    }
  }

  /** Main result on shutdown: however a flow run leaves and however it interleaves with the
      worker, the process gets past the bridge's drop: every interleaving is bounded, and one
      that cannot go on has joined the worker, which has then dealt with every row. */
  lemma FlowRunFlushes(start: Worker, exit: Exit, run: seq<Action>)
    requires CanStart(start) && Allowed(Fresh(start), run) && MainPart(run) == FlowRun(exit)
    ensures var s := After(Fresh(start), run);
            && SendersGone(s) && s.events == EventsOf(exit)
            && ((forall a :: !Enabled(s, a)) ==>
                  && s.bridge.Dropped?
                  && (!start.NoThread? ==> AttemptedRows(s.attempts) + s.discarded == Rows(EventsOf(exit)))
                  && (start.Posting? && !GaveUp(s.attempts) ==> AttemptedRows(s.attempts) == Rows(EventsOf(exit))))
    ensures |run| <= 2 + 4 * |FlowRun(exit)|
  {
    var s := After(Fresh(start), run);
    PostsInOrder(start, run);
    MainFollows(Fresh(start), run);
    FlowRunEnds(exit);
    RunIsBounded(Fresh(start), run);
    if !s.bridge.Dropped? {
      var a := ShutdownNeverStops(s, start);
      assert Enabled(s, a);
    }
  }

  lemma {:induction false} RunIsBounded(s: State, run: seq<Action>)
    requires Allowed(s, run)
    ensures |run| <= Measure(s) + 4 * |MainPart(run)|
    decreases |run|
  {
    if run != [] {
      StepShrinks(s, run[0]);
      RunIsBounded(Do(s, run[0]), run[1..]);
    }
  }

  // ---- An ordinary run

  lemma TwoActions(s: State, a: Action, b: Action, rest: seq<Action>)
    requires Enabled(s, a) && Enabled(Do(s, a), b)
    ensures var t := Do(Do(s, a), b);
            && (Allowed(s, [a, b] + rest) <==> Allowed(t, rest))
            && (Allowed(t, rest) ==> After(s, [a, b] + rest) == After(t, rest))
  {
    assert ([a, b] + rest)[1..] == [b] + rest && ([b] + rest)[1..] == rest;
  }

  /** One event reported, posted and accepted, and the bridge dropped in good order. */
  lemma OrdinaryRun(name: string, description: string)
    ensures var e := RunStarted(name, description);
            var end := [DropSink, DropBridge] + ([End, Joined] + []);
            var run := [NewSink, Report(e)] + ([Take, Answered(Accepted)] + end);
            && Allowed(Fresh(Posting), run)
            && After(Fresh(Posting), run)
               == State(Dropped, 0, Ended, [], [Attempt(Started(name, description), Accepted)], [e], [])
  {
    var e, row := RunStarted(name, description), Started(name, description);
    var s2 := State(Live, 1, Posting, [row], [], [e], []);
    var none: seq<Row> := [];
    assert none + [row] == [row] && [row][1..] == none;
    assert Do(Do(Fresh(Posting), NewSink), Report(e)) == s2;
    var s4 := State(Live, 1, Posting, [], [Attempt(row, Accepted)], [e], []);
    assert Do(Do(s2, Take), Answered(Accepted)) == s4;
    var s6 := Do(Do(s4, DropSink), DropBridge);
    TwoActions(s6, End, Joined, []);
    TwoActions(s4, DropSink, DropBridge, [End, Joined] + []);
    TwoActions(s2, Take, Answered(Accepted), [DropSink, DropBridge] + ([End, Joined] + []));
    TwoActions(Fresh(Posting), NewSink, Report(e),
               [Take, Answered(Accepted)] + ([DropSink, DropBridge] + ([End, Joined] + [])));
  }
}
