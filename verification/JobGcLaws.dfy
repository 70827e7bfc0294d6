/** What a sweep of the jobs directory removes, and how sweeps relate. */
module JobGcLaws {
  import opened Wrappers
  import opened Json
  import opened JobGc

  /** The directory was read to the end. */
  ghost predicate Covers(items: seq<Item>, disk: map<Id, Job>) {
    Lists(items, disk) && forall id :: id in disk ==> JobDir(id) in items
  }

  predicate Old(s: Sweep, job: Job) {
    Classify(job, s.cutoff, s.parseTime) == WouldRemove
  }

  lemma ListsInit(items: seq<Item>, disk: map<Id, Job>, id: Id)
    requires Lists(items, disk) && items != []
    ensures var n := |items| - 1;
            && Lists(items[..n], disk)
            && (JobDir(id) in items <==> JobDir(id) in items[..n] || items[n] == JobDir(id))
            && (items[n] == JobDir(id) ==> forall i :: 0 <= i < n ==> items[..n][i] != JobDir(id))
  {
    var n := |items| - 1;
    assert items == items[..n] + [items[n]];
  }

  /** A job read that is to go has been removed, or its removal has failed. */
  lemma {:induction false} SweptRemoves(s: Sweep, items: seq<Item>, disk: map<Id, Job>, id: Id)
    requires Lists(items, disk) && JobDir(id) in items && !s.dry && Old(s, disk[id])
    ensures var after := Swept(s, items, disk);
            if id in s.fails then id in after && after[id] == s.fails[id] else id !in after
  {
    var n := |items| - 1;
    ListsInit(items, disk, id);
    if items[n] == JobDir(id) {
      SweptKeepsUnread(s, items[..n], disk, id);
    } else {
      SweptRemoves(s, items[..n], disk, id);
    }
  }

  /** Any other is as it was. */
  lemma {:induction false} SweptKeeps(s: Sweep, items: seq<Item>, disk: map<Id, Job>, id: Id)
    requires Lists(items, disk) && (JobDir(id) in items && !s.dry ==> !Old(s, disk[id]))
    ensures var after := Swept(s, items, disk);
            (id in after <==> id in disk) && (id in disk ==> after[id] == disk[id])
  {
    if items != [] {
      ListsInit(items, disk, id);
      SweptKeeps(s, items[..|items| - 1], disk, id);
    }
  }

  /** The directory after a sweep, job by job: only removable jobs that were read differ. */
  lemma SweptAt(s: Sweep, items: seq<Item>, disk: map<Id, Job>, id: Id)
    requires Lists(items, disk)
    ensures var after := Swept(s, items, disk);
            if JobDir(id) in items && !s.dry && Old(s, disk[id])
            then if id in s.fails then id in after && after[id] == s.fails[id] else id !in after
            else (id in after <==> id in disk) && (id in disk ==> after[id] == disk[id])
  {
    if JobDir(id) in items && !s.dry && Old(s, disk[id]) {
      SweptRemoves(s, items, disk, id);
    } else {
      SweptKeeps(s, items, disk, id);
    }
  }

  /** What a job is finally reported as: removed only by a real sweep whose removal worked, and
      corrupt also when it did not. */
  lemma ReportedAs(s: Sweep, id: Id, job: Job)
    ensures var d, kind := Final(s, id, job), Classify(job, s.cutoff, s.parseTime);
            && (d == Removed <==> kind == WouldRemove && !s.dry && id !in s.fails)
            && (d == WouldRemove <==> kind == WouldRemove && s.dry)
            && (d == KeptCorrupt <==> kind == KeptCorrupt || (kind == WouldRemove && !s.dry && id in s.fails))
            && (d in {KeptWorking, KeptRecent, KeptUnknown} ==> d == kind)
  {
  }

  /** One entry per job read, with its final disposition, and no other. */
  lemma {:induction false} EntriesAre(s: Sweep, items: seq<Item>, disk: map<Id, Job>, e: Entry)
    requires Lists(items, disk)
    ensures e in EntriesOf(s, items, disk)
            <==> JobDir(e.id) in items && e.disposition == Final(s, e.id, disk[e.id])
  {
    if items != [] {
      var n := |items| - 1;
      assert items == items[..n] + [items[n]];
      EntriesAre(s, items[..n], disk, e);
    }
  }

  /** The jobs read, in order. */
  function JobsRead(items: seq<Item>): seq<Id> {
    if items == [] then []
    else if items[0].JobDir? then [items[0].id] + JobsRead(items[1..])
    else JobsRead(items[1..])
  }

  lemma {:induction false} JobsReadSnoc(items: seq<Item>, last: Item)
    ensures JobsRead(items + [last]) == JobsRead(items) + if last.JobDir? then [last.id] else []
  {
    if items == [] {
      assert items + [last] == [last];
    } else {
      assert (items + [last])[1..] == items[1..] + [last];
      JobsReadSnoc(items[1..], last);
    }
  }

  /** The report lists the jobs read, once each, in the order they were read. */
  lemma {:induction false} EntriesInOrder(s: Sweep, items: seq<Item>, disk: map<Id, Job>)
    requires Lists(items, disk)
    ensures |EntriesOf(s, items, disk)| == |JobsRead(items)|
    ensures forall i :: 0 <= i < |JobsRead(items)| ==> EntriesOf(s, items, disk)[i].id == JobsRead(items)[i]
  {
    if items != [] {
      var n := |items| - 1;
      assert items == items[..n] + [items[n]];
      JobsReadSnoc(items[..n], items[n]);
      EntriesInOrder(s, items[..n], disk);
    }
  }

  /** Jobs that are working, recent, corrupt or unknown are never touched, by any sweep. */
  lemma OthersAreKept(s: Sweep, items: seq<Item>, disk: map<Id, Job>, id: Id)
    requires Lists(items, disk) && id in disk && Classify(disk[id], s.cutoff, s.parseTime) != WouldRemove
    ensures id in Swept(s, items, disk) && Swept(s, items, disk)[id] == disk[id]
  {
    SweptAt(s, items, disk, id);
  }

  /** A sweep without failures as one map. */
  lemma SweptWhole(s: Sweep, items: seq<Item>, disk: map<Id, Job>)
    requires Covers(items, disk) && s.fails == map[]
    ensures Swept(s, items, disk) == map id | id in disk && (s.dry || !Old(s, disk[id])) :: disk[id]
  {
    var after := Swept(s, items, disk);
    forall id
      ensures id in after <==> id in disk && (s.dry || !Old(s, disk[id]))
      ensures id in after ==> after[id] == disk[id]
    {
      SweptAt(s, items, disk, id);
    }
  }

  /** A dry run changes nothing. */
  lemma DryRunChangesNothing(s: Sweep, items: seq<Item>, disk: map<Id, Job>)
    requires s.dry && Lists(items, disk)
    ensures Swept(s, items, disk) == disk
  {
    forall id
      ensures id in Swept(s, items, disk) <==> id in disk
      ensures id in disk ==> Swept(s, items, disk)[id] == disk[id]
    {
      SweptAt(s, items, disk, id);
    }
  }

  /** Main result on dry runs: when no removal fails, a real run at the same cutoff, reading the
      directory in any order, removes exactly the jobs a dry run lists and leaves every other
      as it was. */
  lemma DryRunForetells(s: Sweep, dryItems: seq<Item>, items: seq<Item>, disk: map<Id, Job>, id: Id)
    requires !s.dry && s.fails == map[] && Covers(dryItems, disk) && Covers(items, disk)
    ensures var listed := Entry(id, WouldRemove) in EntriesOf(s.(dry := true), dryItems, disk);
            && (listed <==> Entry(id, Removed) in EntriesOf(s, items, disk))
            && (id in Swept(s, items, disk) <==> id in disk && !listed)
            && (id in Swept(s, items, disk) ==> Swept(s, items, disk)[id] == disk[id])
  {
    EntriesAre(s.(dry := true), dryItems, disk, Entry(id, WouldRemove));
    EntriesAre(s, items, disk, Entry(id, Removed));
    SweptAt(s, items, disk, id);
  }

  /** A second sweep at the same cutoff only ever removes what a failed removal left behind and
      is still readable as an old terminal job. */
  lemma SecondRunFindsResidueOnly(s: Sweep, items: seq<Item>, disk: map<Id, Job>, again: seq<Item>, id: Id)
    requires !s.dry && Covers(items, disk) && Lists(again, Swept(s, items, disk))
    ensures Entry(id, Removed) in EntriesOf(s.(fails := map[]), again, Swept(s, items, disk))
            <==> && JobDir(id) in again && id in disk && Classify(disk[id], s.cutoff, s.parseTime) == WouldRemove
                 && id in s.fails && Classify(s.fails[id], s.cutoff, s.parseTime) == WouldRemove
  {
    SweptAt(s, items, disk, id);
    EntriesAre(s.(fails := map[]), again, Swept(s, items, disk), Entry(id, Removed));
  }

  /** So after a sweep without failures a second one changes nothing. */
  lemma SecondRunIsIdle(s: Sweep, items: seq<Item>, disk: map<Id, Job>, again: seq<Item>)
    requires !s.dry && s.fails == map[] && Covers(items, disk) && Covers(again, Swept(s, items, disk))
    ensures Swept(s, again, Swept(s, items, disk)) == Swept(s, items, disk)
    ensures forall id :: Entry(id, Removed) !in EntriesOf(s, again, Swept(s, items, disk))
  {
    var once := Swept(s, items, disk);
    forall id ensures Entry(id, Removed) !in EntriesOf(s, again, once) {
      SecondRunFindsResidueOnly(s, items, disk, again, id);
      assert s.(fails := map[]) == s;
    }
    SweptWhole(s, items, disk);
    SweptWhole(s, again, once);
  }

  /** A longer retention removes a subset, whatever fails. */
  lemma LongerRetentionRemovesLess(s: Sweep, longer: Sweep, items: seq<Item>, disk: map<Id, Job>, id: Id)
    requires Lists(items, disk) && longer == s.(cutoff := longer.cutoff) && longer.cutoff <= s.cutoff
    ensures Entry(id, Removed) in EntriesOf(longer, items, disk) ==> Entry(id, Removed) in EntriesOf(s, items, disk)
    ensures id in Swept(s, items, disk) ==> id in Swept(longer, items, disk)
  {
    EntriesAre(s, items, disk, Entry(id, Removed));
    EntriesAre(longer, items, disk, Entry(id, Removed));
    SweptAt(s, items, disk, id);
    SweptAt(longer, items, disk, id);
    if id in disk {
      RemovableIff(disk[id], s.cutoff, s.parseTime);
      RemovableIff(disk[id], longer.cutoff, s.parseTime);
    }
  }

  // ---- What is decided, told from the fields of the document

  /** The state a document reports: the string under `state`, and the one under `status` only
      when `state` holds no string. */
  predicate Reports(doc: Json, state: string) {
    || Get(doc, "state") == Some(JStr(state))
    || (!HasText(doc, "state") && Get(doc, "status") == Some(JStr(state)))
  }

  predicate HasText(doc: Json, key: string) {
    Get(doc, key).Some? && Get(doc, key).value.JStr?
  }

  /** One of the states of a job that is over. */
  predicate ReportsOver(doc: Json) {
    || Reports(doc, "completed") || Reports(doc, "done") || Reports(doc, "stopped") || Reports(doc, "error")
    || Reports(doc, "failed") || Reports(doc, "crashed") || Reports(doc, "killed")
  }

  predicate ReportsWorking(doc: Json) {
    Reports(doc, "working") || (!HasText(doc, "state") && !HasText(doc, "status"))
  }

  /** The job's end: the time in `firstTerminalAt` if it can be read, else the directory's. */
  ghost predicate EndsAt(job: Job, parseTime: string -> Option<int>, time: Option<int>) {
    if job.state.Document? && HasText(job.state.value, "firstTerminalAt")
       && parseTime(Get(job.state.value, "firstTerminalAt").value.s).Some?
    then time == parseTime(Get(job.state.value, "firstTerminalAt").value.s)
    else time == job.mtime
  }

  lemma StateOfReports(doc: Json)
    ensures HasText(doc, "state") || HasText(doc, "status") ==> Reports(doc, StateOf(doc))
    ensures !HasText(doc, "state") && !HasText(doc, "status") ==> StateOf(doc) == "working"
  {
  }

  lemma OverIsTerminal(doc: Json)
    ensures ReportsOver(doc) <==> StateOf(doc) in TERMINAL_STATES
    ensures ReportsWorking(doc) <==> StateOf(doc) == "working"
    ensures ReportsWorking(doc) ==> !ReportsOver(doc)
  {
    StateOfReports(doc);
    WorkingIsNotTerminal();
  }

  /** Main result on the classification, on the fields: a job is removable exactly when its document
      reports a state of a job that is over and its end is known and before the cutoff; working,
      unknown, recent and corrupt are told apart likewise. */
  lemma ClassifiedIff(job: Job, cutoff: int, parseTime: string -> Option<int>, ended: Option<int>)
    requires EndsAt(job, parseTime, ended)
    ensures var d := Classify(job, cutoff, parseTime);
            if !job.state.Document? then d == KeptCorrupt
            else if ReportsWorking(job.state.value) then d == KeptWorking
            else if !ReportsOver(job.state.value) then d == KeptUnknown
            else if ended.None? then d == KeptCorrupt
            else d == if ended.value < cutoff then WouldRemove else KeptRecent
  {
    if job.state.Document? { OverIsTerminal(job.state.value); }
  }

  /** So a working job is left alone by every sweep: one whose `state` is `working`, or that has no
      string there and `working` or no string under `status`. */
  lemma WorkingIsKept(s: Sweep, items: seq<Item>, disk: map<Id, Job>, id: Id)
    requires Lists(items, disk) && id in disk && disk[id].state.Document? && ReportsWorking(disk[id].state.value)
    ensures id in Swept(s, items, disk) && Swept(s, items, disk)[id] == disk[id]
  {
    OverIsTerminal(disk[id].state.value);
    OthersAreKept(s, items, disk, id);
  }

  // ---- The sweep and the liveness probe

  datatype Liveness = Running | Terminal(status: string)

  /** The status a terminal state is reported under; the probe knows no other. */
  function TerminalStatus(state: string): Option<string> {
    if state in {"done", "completed"} then Some("completed")
    else if state in {"failed", "crashed", "error"} then Some("error")
    else if state == "stopped" then Some("stopped")
    else None
  }

  predicate HasEndMark(doc: Json) {
    Get(doc, "firstTerminalAt").Some? && !Get(doc, "firstTerminalAt").value.JNull?
  }

  /** What the orchestrator's probe says of the same directory. */
  function Probe(job: Job): Liveness {
    if !job.state.Document? then Terminal("killed")
    else
      var doc := job.state.value;
      match TerminalStatus(StateOf(doc))
      case Some(status) => Terminal(status)
      case None => if HasEndMark(doc) then Terminal("completed") else Running
  }

  /** What the probe says, on the fields. */
  lemma ProbedIff(job: Job)
    ensures Probe(job) ==
            if !job.state.Document? then Terminal("killed")
            else
              var doc := job.state.value;
              if Reports(doc, "done") || Reports(doc, "completed") then Terminal("completed")
              else if Reports(doc, "failed") || Reports(doc, "crashed") || Reports(doc, "error")
              then Terminal("error")
              else if Reports(doc, "stopped") then Terminal("stopped")
              else if Get(doc, "firstTerminalAt").Some? && Get(doc, "firstTerminalAt") != Some(JNull)
              then Terminal("completed")
              else Running
  {
    if job.state.Document? {
      WorkingIsNotTerminal();
      assert HasText(job.state.value, "state") || HasText(job.state.value, "status") ==>
          forall s :: Reports(job.state.value, s) <==> s == StateOf(job.state.value);
      StateOfReports(job.state.value);
    }
  }

  lemma KnownOrKilled(state: string)
    requires state in TERMINAL_STATES
    ensures TerminalStatus(state).None? <==> state == "killed"
  {
    assert "killed"[0] == 'k';
    assert "done"[0] == 'd' && "completed"[0] == 'c' && "failed"[0] == 'f';
    assert "crashed"[0] == 'c' && "error"[0] == 'e' && "stopped"[0] == 's';
  }

  /** The sweep's terminal states are meant to mirror the probe's. They do not quite: it removes
      a job the probe still calls running exactly when that job is old, says `killed`, and has
      no end mark. */
  lemma RemovesRunningIff(job: Job, cutoff: int, parseTime: string -> Option<int>)
    ensures Classify(job, cutoff, parseTime) == WouldRemove && Probe(job).Running?
            <==> && job.state.Document? && Reports(job.state.value, "killed") && !HasEndMark(job.state.value)
                 && job.mtime.Some? && job.mtime.value < cutoff
  {
    if job.state.Document? { StateOfReports(job.state.value); }
    RemovableIff(job, cutoff, parseTime);
    assert "killed" in TERMINAL_STATES;
    if job.state.Document? && StateOf(job.state.value) in TERMINAL_STATES {
      KnownOrKilled(StateOf(job.state.value));
    }
  }

  /** The other way round: a job the probe calls finished stays for good, whatever the cutoff,
      exactly when its document cannot be read, when it has an end mark but a state that is
      `working` or none of the known ones, or when no time is known for its end. */
  lemma FinishedYetKeptIff(job: Job, parseTime: string -> Option<int>)
    ensures Probe(job).Terminal? && (forall cutoff :: Classify(job, cutoff, parseTime) != WouldRemove)
            <==> || !job.state.Document?
                 || (!ReportsOver(job.state.value) && HasEndMark(job.state.value))
                 || (ReportsOver(job.state.value) && EndsAt(job, parseTime, None)
                     && (!Reports(job.state.value, "killed") || HasEndMark(job.state.value)))
  {
    var ended := EndedAt(job, parseTime);
    if job.state.Document? {
      OverIsTerminal(job.state.value);
      StateOfReports(job.state.value);
    }
    if job.state.Document? && StateOf(job.state.value) in TERMINAL_STATES {
      KnownOrKilled(StateOf(job.state.value));
    }
    RemovableIff(job, if ended.Some? then ended.value + 1 else 0, parseTime);
    forall cutoff ensures Classify(job, cutoff, parseTime) == WouldRemove ==>
                            job.state.Document? && StateOf(job.state.value) in TERMINAL_STATES && ended.Some?
    {
      RemovableIff(job, cutoff, parseTime);
    }
  }
}
