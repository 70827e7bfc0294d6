/** Scheduled agents: which ticks fire (crates/ccteam-core/src/cron.rs). */
module CronRuns {
  import opened Wrappers

  /** An instant, in seconds. */
  type Time = int

  /** The slots of a schedule, and how the cron library finds the next one. */
  datatype Schedule = Schedule(isSlot: Time -> bool, nextAfter: Time -> Option<Time>)

  /** What is assumed of the library: the least slot strictly after, if there is one. */
  ghost predicate Lawful(s: Schedule) {
    forall t: Time ::
      match s.nextAfter(t)
      case Some(n) => t < n && s.isSlot(n) && forall m :: t < m < n ==> !s.isSlot(m)
      case None => forall m :: t < m ==> !s.isSlot(m)
  }

  predicate IsDue(s: Schedule, lastFire: Option<Time>, now: Time) {
    match lastFire
    case None => false
    case Some(last) =>
      match s.nextAfter(last)
      case None => false
      case Some(next) => next <= now
  }

  // ---- Runs of ticks

  /** The recorded last fire after some ticks: the first tick only records itself. */
  function LastFire(s: Schedule, ticks: seq<Time>): Option<Time> {
    if ticks == [] then None
    else
      var n := |ticks| - 1;
      var last := LastFire(s, ticks[..n]);
      if last.None? || IsDue(s, last, ticks[n]) then Some(ticks[n]) else last
  }

  predicate Fires(s: Schedule, ticks: seq<Time>, i: nat)
    requires i < |ticks|
  {
    IsDue(s, LastFire(s, ticks[..i]), ticks[i])
  }

  /** The scheduler's state and its tick. */
  class Scheduler {
    var lastFire: Option<Time>
    ghost var ticks: seq<Time>

    ghost predicate Valid(s: Schedule)
      reads this
    {
      lastFire == LastFire(s, ticks)
    }

    constructor (s: Schedule)
      ensures Valid(s) && ticks == []
    {
      lastFire, ticks := None, [];
    }

    method Tick(s: Schedule, now: Time) returns (fire: bool)
      requires Valid(s)
      modifies this
      ensures Valid(s) && ticks == old(ticks) + [now]
      ensures fire <==> Fires(s, ticks, |old(ticks)|)
    {
      fire := IsDue(s, lastFire, now);
      if lastFire.None? || fire { lastFire := Some(now); }
      ticks := ticks + [now];
      assert ticks[..|ticks| - 1] == old(ticks);
    }
  }

  /** What is recorded is the last tick that fired, or the first tick if none did. */
  lemma {:induction false} RecordedIsFire(s: Schedule, ticks: seq<Time>) returns (j: nat)
    requires ticks != []
    ensures j < |ticks| && LastFire(s, ticks) == Some(ticks[j]) && (j == 0 || Fires(s, ticks, j))
    ensures forall k :: j < k < |ticks| ==> !Fires(s, ticks, k)
  {
    var n := |ticks| - 1;
    var init := ticks[..n];
    if n == 0 || Fires(s, ticks, n) {
      j := n;
    } else {
      j := RecordedIsFire(s, init);
      forall k | 0 <= k < n ensures Fires(s, ticks, k) <==> Fires(s, init, k) { assert ticks[..k] == init[..k]; }
    }
  }

  // ---- Which ticks fire

  ghost predicate Ordered(ticks: seq<Time>) {
    forall i, j :: 0 <= i <= j < |ticks| ==> ticks[i] <= ticks[j]
  }

  ghost predicate SlotIn(s: Schedule, after: Time, upTo: Time) {
    exists m :: after < m <= upTo && s.isSlot(m)
  }

  /** Nothing is owed after a tick: no slot lies between the recorded fire and the tick. */
  lemma {:induction false} NothingOwed(s: Schedule, ticks: seq<Time>)
    requires Lawful(s) && Ordered(ticks) && ticks != []
    ensures var last := LastFire(s, ticks);
            last.Some? && last.value <= ticks[|ticks| - 1] && !SlotIn(s, last.value, ticks[|ticks| - 1])
  {
    var n := |ticks| - 1;
    if n > 0 {
      NothingOwed(s, ticks[..n]);
      var last := LastFire(s, ticks[..n]).value;
    }
  }

  /** Main result: a later tick fires exactly when a slot lies after the tick before it, up to
      itself, whatever was missed or fired earlier. */
  lemma FiresIff(s: Schedule, ticks: seq<Time>, i: nat)
    requires Lawful(s) && Ordered(ticks) && i < |ticks|
    ensures Fires(s, ticks, i) <==> i > 0 && SlotIn(s, ticks[i - 1], ticks[i])
  {
    if i > 0 {
      NothingOwed(s, ticks[..i]);
      var last := LastFire(s, ticks[..i]).value;
      if SlotIn(s, last, ticks[i]) {
        var m :| last < m <= ticks[i] && s.isSlot(m);
        assert m > ticks[i - 1];
      }
    }
  }

  /** Every slot between the first and the last tick is covered by exactly one tick, and that
      tick fires. */
  lemma SlotIsCoveredOnce(s: Schedule, ticks: seq<Time>, m: Time) returns (i: nat)
    requires Lawful(s) && Ordered(ticks) && ticks != []
    requires s.isSlot(m) && ticks[0] < m <= ticks[|ticks| - 1]
    ensures 0 < i < |ticks| && ticks[i - 1] < m <= ticks[i] && Fires(s, ticks, i)
    ensures forall j :: 0 < j < |ticks| && ticks[j - 1] < m <= ticks[j] ==> j == i
  {
    i := 1;
    while ticks[i] < m
      invariant 0 < i < |ticks| && ticks[i - 1] < m
      decreases |ticks| - i
    {
      i := i + 1;
    }
    FiresIff(s, ticks, i);
    assert forall j :: 0 < j < i ==> ticks[j] <= ticks[i - 1];
    assert forall k :: i <= k < |ticks| ==> ticks[i] <= ticks[k];
  }

  /** The first slot a firing tick covers. */
  function FireSlot(s: Schedule, ticks: seq<Time>, i: nat): Time
    requires 0 < i < |ticks|
  {
    match s.nextAfter(ticks[i - 1])
    case Some(n) => n
    case None => ticks[i]
  }

  /** No backlog: fires correspond one to one to slots of their own, in order, so a run never
      fires more often than slots went by. */
  lemma FiresInjectIntoSlots(s: Schedule, ticks: seq<Time>, i: nat, j: nat)
    requires Lawful(s) && Ordered(ticks) && i < j < |ticks| && Fires(s, ticks, i) && Fires(s, ticks, j)
    ensures 0 < i && s.isSlot(FireSlot(s, ticks, i)) && s.isSlot(FireSlot(s, ticks, j))
    ensures ticks[i - 1] < FireSlot(s, ticks, i) <= ticks[i] < FireSlot(s, ticks, j) <= ticks[j]
  {
    FiresIff(s, ticks, i);
    FiresIff(s, ticks, j);
    assert ticks[i] <= ticks[j - 1];
  }
}
