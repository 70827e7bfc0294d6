/** Reclaiming old job directories (crates/ccteam-core/src/claude_job.rs). */
module JobGc {
  import opened Wrappers
  import opened Json

  type Id = string

  /** `state.json` as read, and the directory's modification time, in seconds. */
  datatype StateFile = Unreadable | Garbage | Document(value: Json)

  datatype Job = Job(state: StateFile, mtime: Option<int>)

  datatype Disposition = Removed | WouldRemove | KeptWorking | KeptRecent | KeptCorrupt | KeptUnknown

  datatype Entry = Entry(id: Id, disposition: Disposition)

  const TERMINAL_STATES := {"completed", "done", "stopped", "error", "failed", "crashed", "killed"}
  const DAY := 86_400

  // ---- Classifying one directory

  function AsText(j: Option<Json>): Option<string> {
    if j.Some? && j.value.JStr? then Some(j.value.s) else None
  }

  /** The state a document reports: `state`, else `status`, else still working. */
  function StateOf(doc: Json): string {
    match AsText(Get(doc, "state"))
    case Some(s) => s
    case None =>
      match AsText(Get(doc, "status"))
      case Some(s) => s
      case None => "working"
  }

  /** When the job ended: its own record if it can be read, else the directory's time. */
  function EndedAt(job: Job, parseTime: string -> Option<int>): Option<int> {
    var recorded := if job.state.Document? then AsText(Get(job.state.value, "firstTerminalAt")) else None;
    if recorded.Some? && parseTime(recorded.value).Some? then parseTime(recorded.value) else job.mtime
  }

  /** Never `Removed`. */
  function Classify(job: Job, cutoff: int, parseTime: string -> Option<int>): Disposition {
    if !job.state.Document? then KeptCorrupt
    else
      var state := StateOf(job.state.value);
      if state == "working" then KeptWorking
      else if state !in TERMINAL_STATES then KeptUnknown
      else
        match EndedAt(job, parseTime)
        case Some(t) => if t < cutoff then WouldRemove else KeptRecent
        case None => KeptCorrupt
  }

  /** The whole rule: a directory goes exactly when its job is terminal and is known to have
      ended before the cutoff. */
  lemma RemovableIff(job: Job, cutoff: int, parseTime: string -> Option<int>)
    ensures Classify(job, cutoff, parseTime) == WouldRemove
            <==> && job.state.Document? && StateOf(job.state.value) in TERMINAL_STATES
                 && EndedAt(job, parseTime).Some? && EndedAt(job, parseTime).value < cutoff
  {
    WorkingIsNotTerminal();
  }

  lemma WorkingIsNotTerminal()
    ensures "working" !in TERMINAL_STATES
  {
    assert "working" != "stopped" && "working" != "crashed" && |"working"| == 7;
    assert "working"[0] == 'w' && "stopped"[0] == 's' && "crashed"[0] == 'c';
  }

  // ---- One sweep

  /** What reading the directory yields, in order: an error, an entry whose type cannot be
      read, an entry that is no directory, or a job. */
  datatype Item = IterFails | TypeFails | Stray | JobDir(id: Id)

  /** One sweep: the cutoff, whether it only reports, and which removals fail and what such a
      removal leaves. */
  datatype Sweep = Sweep(cutoff: int, dry: bool, fails: map<Id, Job>, parseTime: string -> Option<int>)

  /** What becomes of a directory once its removal was attempted, if it was. */
  function Settled(d: Disposition, dry: bool, fails: bool): Disposition {
    if d == WouldRemove && !dry then (if fails then KeptCorrupt else Removed) else d
  }

  function Final(s: Sweep, id: Id, job: Job): Disposition {
    Settled(Classify(job, s.cutoff, s.parseTime), s.dry, id in s.fails)
  }

  function EntriesOf(s: Sweep, items: seq<Item>, disk: map<Id, Job>): seq<Entry> {
    if items == [] then []
    else
      var last := items[|items| - 1];
      EntriesOf(s, items[..|items| - 1], disk)
      + if last.JobDir? && last.id in disk then [Entry(last.id, Final(s, last.id, disk[last.id]))] else []
  }

  /** The directory after a job was dealt with. */
  function Dealt(s: Sweep, id: Id, disk: map<Id, Job>): map<Id, Job> {
    if id !in disk || s.dry || Classify(disk[id], s.cutoff, s.parseTime) != WouldRemove then disk
    else if id in s.fails then disk[id := s.fails[id]]
    else disk - {id}
  }

  function Swept(s: Sweep, items: seq<Item>, disk: map<Id, Job>): map<Id, Job> {
    if items == [] then disk
    else
      var before := Swept(s, items[..|items| - 1], disk);
      if items[|items| - 1].JobDir? then Dealt(s, items[|items| - 1].id, before) else before
  }

  /** Each job is read once. */
  ghost predicate Lists(items: seq<Item>, disk: map<Id, Job>) {
    && (forall i :: 0 <= i < |items| && items[i].JobDir? ==> items[i].id in disk)
    && (forall i, j :: 0 <= i < j < |items| && items[i].JobDir? && items[j].JobDir? ==> items[i].id != items[j].id)
  }

  function Count(entries: seq<Entry>, d: Disposition): nat {
    if entries == [] then 0
    else Count(entries[..|entries| - 1], d) + if entries[|entries| - 1].disposition == d then 1 else 0
  }

  datatype Report = Report(
    before: nat, after: nat, removed: nat,
    keptWorking: nat, keptRecent: nat, keptCorrupt: nat, keptUnknown: nat,
    dryRun: bool, entries: seq<Entry>)

  /** The counters are what the entries say. */
  ghost predicate Tallies(r: Report) {
    && r.before == |r.entries|
    && r.after == |r.entries| - Count(r.entries, Removed)
    && r.removed == Count(r.entries, Removed) + Count(r.entries, WouldRemove)
    && r.keptWorking == Count(r.entries, KeptWorking) && r.keptRecent == Count(r.entries, KeptRecent)
    && r.keptCorrupt == Count(r.entries, KeptCorrupt) && r.keptUnknown == Count(r.entries, KeptUnknown)
  }

  lemma {:induction false} CountBound(entries: seq<Entry>)
    ensures Count(entries, Removed) + Count(entries, WouldRemove) + Count(entries, KeptWorking)
            + Count(entries, KeptRecent) + Count(entries, KeptCorrupt) + Count(entries, KeptUnknown) == |entries|
  {
    if entries != [] { CountBound(entries[..|entries| - 1]); }
  }

  /** Accounting: every directory seen is removed or kept for one of four reasons, and what is
      left is what was there less what is really gone. */
  lemma AccountsBalance(r: Report)
    requires Tallies(r)
    ensures r.before == r.removed + r.keptWorking + r.keptRecent + r.keptCorrupt + r.keptUnknown
    ensures r.after == r.before - Count(r.entries, Removed)
  {
    CountBound(r.entries);
  }

  /** Items up to the first that fails to be read. */
  function Readable(items: seq<Item>): (n: nat)
    ensures n <= |items| && (n < |items| ==> items[n].IterFails?)
    ensures forall i :: 0 <= i < n ==> !items[i].IterFails?
  {
    if items == [] || items[0].IterFails? then 0 else 1 + Readable(items[1..])
  }

  datatype Error = ReadDirFailed | IterFailed

  /** The jobs directory; `exists_` and `opens` say what looking at it yields. */
  class JobsDir {
    var disk: map<Id, Job>
    var exists_: bool
    var opens: bool

    method Gc(items: seq<Item>, retentionDays: nat, now: int, dry: bool, fails: map<Id, Job>,
              parseTime: string -> Option<int>)
      returns (r: Result<Report, Error>)
      requires Lists(items, disk)
      modifies this
      ensures exists_ == old(exists_) && opens == old(opens)
      ensures retentionDays == 0 || !old(exists_) ==>
                disk == old(disk) && r == Success(Report(0, 0, 0, 0, 0, 0, 0, dry, []))
      ensures retentionDays > 0 && old(exists_) && !old(opens) ==> disk == old(disk) && r == Failure(ReadDirFailed)
      ensures retentionDays > 0 && old(exists_) && old(opens) ==>
                var s := Sweep(now - retentionDays * 86_400, dry, fails, parseTime);
                && disk == Swept(s, items[..Readable(items)], old(disk))
                && (r.Success? <==> Readable(items) == |items|)
                && (r.Failure? ==> r.error == IterFailed)
                && (r.Success? ==> r.value.entries == EntriesOf(s, items, old(disk)) && r.value.dryRun == dry
                                   && Tallies(r.value))
    {
      var report := Report(0, 0, 0, 0, 0, 0, 0, dry, []);
      if retentionDays == 0 { return Success(report); }
      if !exists_ { return Success(report); }
      var s := Sweep(now - retentionDays * DAY, dry, fails, parseTime);
      if !opens { return Failure(ReadDirFailed); }
      ghost var was := disk;
      assert items[..0] == [];
      for i := 0 to |items|
        invariant exists_ == old(exists_) && opens == old(opens)
        invariant i <= Readable(items)
        invariant disk == Swept(s, items[..i], was)
        invariant report.entries == EntriesOf(s, items[..i], was) && report.dryRun == dry
        invariant Tallies(report)
      {
        assert items[..i + 1][..i] == items[..i];
        match items[i] {
          case IterFails =>
            ReadableStops(items, i);
            return Failure(IterFailed);
          case TypeFails =>
          case Stray =>
          case JobDir(id) =>
            SweptKeepsUnread(s, items[..i], was, id);
            report := Visit(s, id, report);
        }
        ReadableGoesOn(items, i);
      }
      assert items[..|items|] == items;
      r := Success(report);
    }

    /** One directory: the counters are bumped before the removal and taken back after it. */
    method Visit(s: Sweep, id: Id, was: Report) returns (r: Report)
      requires id in disk && Tallies(was)
      modifies this`disk
      ensures disk == Dealt(s, id, old(disk))
      ensures r.entries == was.entries + [Entry(id, Final(s, id, old(disk)[id]))] && r.dryRun == was.dryRun
      ensures Tallies(r)
    {
      var disposition := Classify(disk[id], s.cutoff, s.parseTime);
      var bumped := Bump(was, disposition);
      if disposition == WouldRemove && !s.dry {
        disk := if id in s.fails then disk[id := s.fails[id]] else disk - {id};
      }
      r := TakeBack(was, bumped, id, disposition, s.dry, id in s.fails);
    }
  }

  ghost predicate Bumped(was: Report, r: Report, disposition: Disposition) {
    && r.before == was.before + 1 && r.after == was.after + 1
    && r.removed == was.removed + (if disposition == WouldRemove then 1 else 0)
    && r.keptWorking == was.keptWorking + (if disposition == KeptWorking then 1 else 0)
    && r.keptRecent == was.keptRecent + (if disposition == KeptRecent then 1 else 0)
    && r.keptCorrupt == was.keptCorrupt + (if disposition == KeptCorrupt then 1 else 0)
    && r.keptUnknown == was.keptUnknown + (if disposition == KeptUnknown then 1 else 0)
    && r.dryRun == was.dryRun && r.entries == was.entries
  }

  /** The entry of one more directory, with what its removal takes back from the counters. */
  method TakeBack(ghost was: Report, bumped: Report, id: Id, d: Disposition, dry: bool, failed: bool)
    returns (r: Report)
    requires Tallies(was) && d != Removed && Bumped(was, bumped, d)
    ensures r.entries == was.entries + [Entry(id, Settled(d, dry, failed))] && r.dryRun == was.dryRun
    ensures Tallies(r)
  {
    r := bumped;
    if d == WouldRemove && !dry {
      if failed {
        r := r.(removed := r.removed - 1, keptCorrupt := r.keptCorrupt + 1);
      } else {
        r := r.(after := r.after - 1);
      }
    }
    r := r.(entries := r.entries + [Entry(id, Settled(d, dry, failed))]);
    CountSnoc(was.entries, Entry(id, Settled(d, dry, failed)));
  }

  /** The counters of one more directory, before anything is removed. */
  method Bump(was: Report, disposition: Disposition) returns (r: Report)
    requires disposition != Removed
    ensures Bumped(was, r, disposition)
  {
    r := was.(before := was.before + 1, after := was.after + 1);
    match disposition {
      case WouldRemove => r := r.(removed := r.removed + 1);
      case KeptWorking => r := r.(keptWorking := r.keptWorking + 1);
      case KeptRecent => r := r.(keptRecent := r.keptRecent + 1);
      case KeptCorrupt => r := r.(keptCorrupt := r.keptCorrupt + 1);
      case KeptUnknown => r := r.(keptUnknown := r.keptUnknown + 1);
    }
  }

  lemma CountSnoc(entries: seq<Entry>, e: Entry)
    ensures forall d :: Count(entries + [e], d) == Count(entries, d) + if e.disposition == d then 1 else 0
  {
    assert (entries + [e])[..|entries|] == entries;
  }

  lemma {:induction false} ReadableStops(items: seq<Item>, i: nat)
    requires i < |items| && i <= Readable(items) && items[i].IterFails?
    ensures Readable(items) == i
  {
  }

  lemma ReadableGoesOn(items: seq<Item>, i: nat)
    requires i < |items| && i <= Readable(items) && !items[i].IterFails?
    ensures i + 1 <= Readable(items)
  {
  }

  /** A job not read yet is as it was. */
  lemma {:induction false} SweptKeepsUnread(s: Sweep, items: seq<Item>, disk: map<Id, Job>, id: Id)
    requires forall i :: 0 <= i < |items| ==> items[i] != JobDir(id)
    ensures id in Swept(s, items, disk) <==> id in disk
    ensures id in disk ==> Swept(s, items, disk)[id] == disk[id]
  {
    if items != [] { SweptKeepsUnread(s, items[..|items| - 1], disk, id); }
  }
}
