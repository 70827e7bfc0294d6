/** What a flow run's events put on the ledger (crates/ccteam-cli/src/flow_bridge.rs). */
module LedgerRows {
  import opened Wrappers

  /** The runner's events; phases, agents and log lines are all narration here. */
  datatype Event =
    | RunStarted(name: string, description: string)
    | BrakeTripped(reason: string)
    | RunFinished(agents: nat, costUsd: real, ok: bool)
    | Narration

  /** A queued envelope row, less the run's identity and the time of day. */
  datatype Row =
    | Started(name: string, description: string)
    | Brake(reason: string)
    | Finished(agents: nat, costUsd: real, ok: bool, brake: Option<string>)

  function RowFor(e: Event, brake: Option<string>): seq<Row> {
    match e
    case RunStarted(name, description) => [Started(name, description)]
    case BrakeTripped(reason) => [Brake(reason)]
    case RunFinished(agents, costUsd, ok) => [Finished(agents, costUsd, ok, brake)]
    case Narration => []
  }

  /** The reason of the last brake among the events. */
  function LatestBrake(events: seq<Event>): Option<string> {
    if events == [] then None
    else if events[|events| - 1].BrakeTripped? then Some(events[|events| - 1].reason)
    else LatestBrake(events[..|events| - 1])
  }

  function Rows(events: seq<Event>): seq<Row> {
    if events == [] then []
    else
      var before := events[..|events| - 1];
      Rows(before) + RowFor(events[|events| - 1], LatestBrake(before))
  }

  lemma OneMore(events: seq<Event>, e: Event)
    ensures Rows(events + [e]) == Rows(events) + RowFor(e, LatestBrake(events))
    ensures LatestBrake(events + [e]) == if e.BrakeTripped? then Some(e.reason) else LatestBrake(events)
  {
    assert (events + [e])[..|events|] == events;
  }

  /** The sink handed to the runner: it remembers the last brake and queues rows. */
  class Sink {
    var brake: Option<string>
    var sent: seq<Row>
    ghost var events: seq<Event>

    ghost predicate Valid()
      reads this
    {
      brake == LatestBrake(events) && sent == Rows(events)
    }

    constructor ()
      ensures Valid() && events == []
    {
      brake, sent, events := None, [], [];
    }

    method Report(e: Event)
      requires Valid()
      modifies this
      ensures Valid() && events == old(events) + [e]
    {
      hide Rows, LatestBrake;
      OneMore(events, e);
      ghost var was := sent;
      var row: Option<Row>;
      match e {
        case RunStarted(name, description) => row := Some(Started(name, description));
        case BrakeTripped(reason) =>
          brake := Some(reason);
          row := Some(Brake(reason));
        case RunFinished(agents, costUsd, ok) => row := Some(Finished(agents, costUsd, ok, brake));
        case Narration => row := None;
      }
      if row.Some? { sent := sent + [row.value]; }
      events := events + [e];
      assert was + [] == was;
    }
  }

  // ---- What the rows say

  lemma {:induction false} RowsOfPrefix(events: seq<Event>, i: nat)
    requires i <= |events|
    ensures Rows(events[..i]) <= Rows(events)
    decreases |events| - i
  {
    if i == |events| {
      assert events[..i] == events;
    } else {
      RowsOfPrefix(events, i + 1);
      assert events[..i + 1][..i] == events[..i];
    }
  }

  lemma {:induction false} NoBrake(events: seq<Event>)
    requires LatestBrake(events).None?
    ensures forall j :: 0 <= j < |events| ==> !events[j].BrakeTripped?
  {
    if events != [] {
      var init := events[..|events| - 1];
      NoBrake(init);
      assert forall j :: 0 <= j < |init| ==> init[j] == events[j];
    }
  }

  lemma {:induction false} LastBrakeAt(events: seq<Event>) returns (j: nat)
    requires LatestBrake(events).Some?
    ensures j < |events| && events[j] == BrakeTripped(LatestBrake(events).value)
    ensures forall k :: j < k < |events| ==> !events[k].BrakeTripped?
  {
    j := |events| - 1;
    if !events[j].BrakeTripped? {
      var init := events[..j];
      j := LastBrakeAt(init);
      assert forall k :: 0 <= k < |init| ==> init[k] == events[k];
    }
  }

  /** The remembered brake is the last one tripped, if any was. */
  lemma LatestBrakeIsLast(events: seq<Event>)
    ensures LatestBrake(events).None? <==> forall j :: 0 <= j < |events| ==> !events[j].BrakeTripped?
    ensures LatestBrake(events).Some? ==> exists j ::
              && 0 <= j < |events| && events[j] == BrakeTripped(LatestBrake(events).value)
              && forall k :: j < k < |events| ==> !events[k].BrakeTripped?
  {
    if LatestBrake(events).Some? {
      var j := LastBrakeAt(events);
      assert events[j].BrakeTripped?;
    } else {
      NoBrake(events);
    }
  }

  /** The reason of the last brake before event `i`, if there was one. */
  ghost predicate BrakeBefore(events: seq<Event>, i: nat, brake: Option<string>)
    requires i <= |events|
  {
    match brake
    case None => forall j :: 0 <= j < i ==> !events[j].BrakeTripped?
    case Some(reason) =>
      exists j :: 0 <= j < i && events[j] == BrakeTripped(reason)
                  && forall k :: j < k < i ==> !events[k].BrakeTripped?
  }

  /** What event `i` puts on the ledger: a row with its own fields, a finished run's with the last
      brake before it, and nothing for narration. */
  ghost predicate IsRowOf(events: seq<Event>, i: nat, rows: seq<Row>)
    requires i < |events|
  {
    match events[i]
    case RunStarted(name, description) => rows == [Started(name, description)]
    case BrakeTripped(reason) => rows == [Brake(reason)]
    case RunFinished(agents, costUsd, ok) =>
      |rows| == 1 && rows[0].Finished? && rows[0] == Finished(agents, costUsd, ok, rows[0].brake)
      && BrakeBefore(events, i, rows[0].brake)
    case Narration => rows == []
  }

  /** Main result on rows: the ledger is, event by event and in order, exactly what each event puts
      there. */
  lemma EventHasItsRow(events: seq<Event>, i: nat)
    requires i < |events|
    ensures var before, upTo := Rows(events[..i]), Rows(events[..i + 1]);
            && before <= upTo <= Rows(events)
            && IsRowOf(events, i, upTo[|before|..])
  {
    RowsOfPrefix(events, i + 1);
    assert events[..i + 1][..i] == events[..i];
    RememberedIsLast(events, i);
    assert Rows(events[..i + 1]) == Rows(events[..i]) + RowFor(events[i], LatestBrake(events[..i]));
  }

  lemma RememberedIsLast(events: seq<Event>, i: nat)
    requires i <= |events|
    ensures BrakeBefore(events, i, LatestBrake(events[..i]))
  {
    LatestBrakeIsLast(events[..i]);
    var brake := LatestBrake(events[..i]);
    if brake.Some? {
      var j :| 0 <= j < i && events[..i][j] == BrakeTripped(brake.value)
               && forall k :: j < k < i ==> !events[..i][k].BrakeTripped?;
      assert events[j] == BrakeTripped(brake.value);
      assert forall k :: j < k < i ==> events[..i][k] == events[k];
    } else {
      assert forall j :: 0 <= j < i ==> events[..i][j] == events[j];
    }
  }

  /** And nothing else is on the ledger. */
  lemma {:induction false} RowsCount(events: seq<Event>)
    ensures |Rows(events)| == |Envelope(events)|
  {
    if events != [] { RowsCount(events[..|events| - 1]); }
  }

  function Envelope(events: seq<Event>): seq<Event> {
    if events == [] then []
    else Envelope(events[..|events| - 1]) + if events[|events| - 1].Narration? then [] else [events[|events| - 1]]
  }
}
