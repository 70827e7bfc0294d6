/**
 Replacing the installed binary (crates/ccteam-cli/src/update.rs): copy to `.ccteam.new` beside
 it, set its mode, rename it over the destination.
 */
module InstallBinary {
  import opened Octets
  import opened InodeFs
  import opened Disk

  const NEW := ".ccteam.new"

  function NewOf(dest: Path): Path
    requires dest != []
  {
    dest[..|dest| - 1] + [NEW]
  }

  /** What goes wrong: creating the directory, removing a stale copy, opening the source or
      writing the copy, setting its mode, the rename, the removal after a failed rename. */
  datatype Faults = Faults(mkdir: bool, stale: bool, copy: Writing, chmod: bool, rename: bool, cleanup: bool)

  function Cleared(fs: Fs, tmp: Path, f: Faults): Fs {
    if !f.stale && tmp in fs.names then Remove(fs, tmp) else fs
  }

  function Renaming(fs: Fs, dest: Path, f: Faults): seq<Fs>
    requires dest != []
  {
    var tmp := NewOf(dest);
    if !f.rename && tmp in fs.names then [Rename(fs, tmp, dest)]
    else [fs, if !f.cleanup && tmp in fs.names then Remove(fs, tmp) else fs]
  }

  function Copying(fs: Fs, source: Path, tmp: Path, f: Faults): seq<Fs> {
    match At(fs, source)
    case Missing => []
    case File(bytes) => if source == tmp || SameInode(fs, source, tmp) then Written(fs, tmp, [], f.copy)
                        else Written(fs, tmp, bytes, f.copy)
  }

  /** Every state of one call: what a crash can leave. */
  function Trail(fs: Fs, source: Path, dest: Path, f: Faults): seq<Fs>
    requires dest != []
  {
    if f.mkdir then []
    else
      var cleared := Cleared(fs, NewOf(dest), f);
      [cleared] + Swapping(cleared, source, dest, f)
  }

  /** The states after the stale copy is dealt with. */
  function Swapping(fs: Fs, source: Path, dest: Path, f: Faults): seq<Fs>
    requires dest != []
  {
    var copying := Copying(fs, source, NewOf(dest), f);
    copying
    + if At(fs, source).Missing? || !f.copy.Whole? || f.chmod then [] else Renaming(LastOf(fs, copying), dest, f)
  }

  predicate Succeeds(fs: Fs, source: Path, dest: Path, f: Faults)
    requires dest != []
  {
    && !f.mkdir && At(Cleared(fs, NewOf(dest), f), source).File? && f.copy.Whole? && !f.chmod && !f.rename
  }

  /** The call, in the source's form. */
  method Install(v: Volume, source: Path, dest: Path, f: Faults) returns (ok: bool)
    requires dest != []
    modifies v
    ensures v.trail == old(v.trail) + Trail(old(v.fs), source, dest, f)
    ensures v.fs == LastOf(old(v.fs), Trail(old(v.fs), source, dest, f))
    ensures ok <==> Succeeds(old(v.fs), source, dest, f)
  {
    if f.mkdir { return false; }
    ghost var before := v.trail;
    var _ := v.RemoveFile(NewOf(dest), f.stale);
    ghost var cleared := v.fs;
    ok := CopyAndRename(v, source, dest, f);
    var rest := Swapping(cleared, source, dest, f);
    assert before + [cleared] + rest == before + ([cleared] + rest);
  }

  method CopyAndRename(v: Volume, source: Path, dest: Path, f: Faults) returns (ok: bool)
    requires dest != []
    modifies v
    ensures v.trail == old(v.trail) + Swapping(old(v.fs), source, dest, f)
    ensures v.fs == LastOf(old(v.fs), Swapping(old(v.fs), source, dest, f))
    ensures ok <==> At(old(v.fs), source).File? && f.copy.Whole? && !f.chmod && !f.rename
  {
    var tmp := NewOf(dest);
    var copied := CopyFile(v, source, tmp, f);
    if !copied || f.chmod { return false; }
    ok := v.RenameFile(tmp, dest, f.rename);
    if !ok {
      var _ := v.RemoveFile(tmp, f.cleanup);
    }
  }

  /** `std::fs::copy`; copying a file onto itself truncates it first and then finds nothing
      to read. */
  method CopyFile(v: Volume, source: Path, tmp: Path, f: Faults) returns (ok: bool)
    modifies v
    ensures v.trail == old(v.trail) + Copying(old(v.fs), source, tmp, f)
    ensures v.fs == LastOf(old(v.fs), Copying(old(v.fs), source, tmp, f))
    ensures ok <==> At(old(v.fs), source).File? && f.copy.Whole?
    ensures ok ==> tmp in v.fs.names
  {
    match At(v.fs, source)
    case Missing => return false;
    case File(bytes) =>
      var same := source == tmp || SameInode(v.fs, source, tmp);
      ok := v.WriteFile(tmp, if same then [] else bytes, f.copy);
      assert ok ==> |Written(old(v.fs), tmp, if same then [] else bytes, f.copy)| > 0;
  }

  // ---- The swap is atomic

  /** The temporary name is not `q` and shares no inode with it. */
  predicate Apart(fs: Fs, dest: Path, q: Path)
    requires dest != []
  {
    q != NewOf(dest) && !SameInode(fs, NewOf(dest), q)
  }

  /** Whatever stands apart, but for `dest`, is kept and stays apart. */
  ghost predicate Kept(fs: Fs, mid: Fs, dest: Path)
    requires dest != []
  {
    forall q :: q != dest && Apart(fs, dest, q) ==> At(mid, q) == At(fs, q) && Apart(mid, dest, q)
  }

  lemma WritingIsUnseen(fs: Fs, dest: Path, bytes: Bytes)
    requires dest != [] && Valid(fs) && Apart(fs, dest, dest)
    ensures var w := Write(fs, NewOf(dest), bytes);
            && Valid(w) && Kept(fs, w, dest) && Apart(w, dest, dest) && At(w, dest) == At(fs, dest)
            && At(w, NewOf(dest)) == File(bytes)
  {
    var tmp := NewOf(dest);
    forall q ensures Apart(fs, dest, q) ==>
                       At(Write(fs, tmp, bytes), q) == At(fs, q) && Apart(Write(fs, tmp, bytes), dest, q)
    {
      WriteShows(fs, tmp, bytes, q);
      WriteKeepsSharing(fs, tmp, bytes, tmp, q);
    }
    WriteShows(fs, tmp, bytes, tmp);
  }

  lemma RenamingSwaps(fs: Fs, dest: Path, f: Faults, k: nat)
    requires dest != [] && Valid(fs) && Apart(fs, dest, dest)
    requires NewOf(dest) in fs.names && k < |Renaming(fs, dest, f)|
    ensures var mid := Renaming(fs, dest, f)[k];
            && Valid(mid) && Kept(fs, mid, dest) && Apart(mid, dest, dest)
            && At(mid, dest) == if f.rename then At(fs, dest) else At(fs, NewOf(dest))
  {
    var tmp := NewOf(dest);
    var mid := Renaming(fs, dest, f)[k];
    forall q ensures q != tmp ==> At(mid, q) == if q == dest && !f.rename then At(fs, tmp) else At(fs, q) {
      RenameShows(fs, tmp, dest, q);
      RemoveShows(fs, tmp, q);
    }
  }

  lemma CopyingIsUnseen(fs: Fs, source: Path, dest: Path, f: Faults, k: nat)
    requires dest != [] && Valid(fs) && Apart(fs, dest, dest) && Apart(fs, dest, source)
    requires k < |Copying(fs, source, NewOf(dest), f)|
    ensures var states := Copying(fs, source, NewOf(dest), f);
            && Valid(states[k]) && Kept(fs, states[k], dest) && Apart(states[k], dest, dest)
            && At(states[k], dest) == At(fs, dest) && NewOf(dest) in states[k].names
            && (f.copy.Whole? && k == |states| - 1 ==> At(states[k], NewOf(dest)) == At(fs, source))
  {
    var bytes := At(fs, source).bytes;
    assert bytes[..|bytes|] == bytes;
    WritingIsUnseen(fs, dest, Landed(f.copy, bytes)[..k]);
  }

  /** What a call may assume once it has tried to remove a stale copy: that worked, or the
      temporary name stands apart from both ends. */
  predicate Clear(fs: Fs, source: Path, dest: Path, f: Faults)
    requires dest != []
  {
    !f.stale || (Apart(fs, dest, dest) && Apart(fs, dest, source))
  }

  lemma ClearingIsUnseen(fs: Fs, source: Path, dest: Path, f: Faults)
    requires dest != [] && Valid(fs) && dest != NewOf(dest) && Clear(fs, source, dest, f)
    ensures var c := Cleared(fs, NewOf(dest), f);
            && Valid(c) && Kept(fs, c, dest) && Apart(c, dest, dest) && At(c, dest) == At(fs, dest)
            && (source == NewOf(dest) && !f.stale ==> At(c, source).Missing?)
            && (source != NewOf(dest) ==> Apart(c, dest, source) && At(c, source) == At(fs, source))
            && (!f.stale ==> forall q :: q != NewOf(dest) ==> Apart(c, dest, q) && At(c, q) == At(fs, q))
  {
    var tmp := NewOf(dest);
    forall q ensures q != tmp ==> At(Cleared(fs, tmp, f), q) == At(fs, q) { RemoveShows(fs, tmp, q); }
  }

  /** The old content or, in full, that of the source. */
  ghost predicate IsWhole(fs: Fs, mid: Fs, source: Path, dest: Path) {
    || At(mid, dest) == At(fs, dest)
    || (At(fs, source).File? && At(mid, dest) == At(fs, source))
  }

  lemma SwappingIsAtomic(fs: Fs, source: Path, dest: Path, f: Faults, k: nat)
    requires dest != [] && Valid(fs) && Apart(fs, dest, dest)
    requires if source == NewOf(dest) then At(fs, source).Missing? else Apart(fs, dest, source)
    requires k < |Swapping(fs, source, dest, f)|
    ensures var mid := Swapping(fs, source, dest, f)[k];
            && Valid(mid) && Kept(fs, mid, dest) && Apart(mid, dest, dest) && IsWhole(fs, mid, source, dest)
  {
    var copying := Copying(fs, source, NewOf(dest), f);
    if k < |copying| {
      CopyingIsUnseen(fs, source, dest, f, k);
    } else {
      CopyingIsUnseen(fs, source, dest, f, |copying| - 1);
      RenamingSwaps(LastOf(fs, copying), dest, f, k - |copying|);
    }
  }

  /** Main step: at every state a call goes through, whatever fails, the destination holds its
      old content or the complete source, and what stood apart from the temporary file (after a
      removal that worked, everything) is untouched. */
  lemma SwapIsAtomic(fs: Fs, source: Path, dest: Path, f: Faults, k: nat)
    requires dest != [] && Valid(fs) && dest != NewOf(dest) && Clear(fs, source, dest, f)
    requires k < |Trail(fs, source, dest, f)|
    ensures var mid := Trail(fs, source, dest, f)[k];
            && Valid(mid) && IsWhole(fs, mid, source, dest) && Apart(mid, dest, dest)
            && (At(mid, dest) != At(fs, dest) ==> source != NewOf(dest))
            && (forall q :: q != dest && q != NewOf(dest) && (f.stale ==> Apart(fs, dest, q))
                  ==> At(mid, q) == At(fs, q) && Apart(mid, dest, q))
  {
    var cleared := Cleared(fs, NewOf(dest), f);
    ClearingIsUnseen(fs, source, dest, f);
    if k > 0 { SwappingIsAtomic(cleared, source, dest, f, k - 1); }
  }

  /** What the caller is told: the destination is the new binary exactly when the call
      succeeds, and the old one otherwise. */
  lemma VerdictIsRight(fs: Fs, source: Path, dest: Path, f: Faults)
    requires dest != [] && Valid(fs) && dest != NewOf(dest) && Clear(fs, source, dest, f)
    ensures At(LastOf(fs, Trail(fs, source, dest, f)), dest) ==
            if Succeeds(fs, source, dest, f) then At(fs, source) else At(fs, dest)
  {
    var cleared := Cleared(fs, NewOf(dest), f);
    ClearingIsUnseen(fs, source, dest, f);
    if !f.mkdir && Swapping(cleared, source, dest, f) != [] { SwappingEnds(cleared, source, dest, f); }
  }

  lemma SwappingEnds(fs: Fs, source: Path, dest: Path, f: Faults)
    requires dest != [] && Valid(fs) && Apart(fs, dest, dest) && Swapping(fs, source, dest, f) != []
    requires if source == NewOf(dest) then At(fs, source).Missing? else Apart(fs, dest, source)
    ensures At(LastOf(fs, Swapping(fs, source, dest, f)), dest)
            == if f.copy.Whole? && !f.chmod && !f.rename then At(fs, source) else At(fs, dest)
  {
    var copying := Copying(fs, source, NewOf(dest), f);
    CopyingIsUnseen(fs, source, dest, f, |copying| - 1);
    if f.copy.Whole? && !f.chmod {
      var copied := LastOf(fs, copying);
      RenamingSwaps(copied, dest, f, |Renaming(copied, dest, f)| - 1);
    }
  }

  // ---- Exactly when

  /** What a returning call leaves of the temporary name, `.ccteam.new` beside the destination: it is
      there exactly when a stale copy could not be removed or the new one was begun, and it was
      neither renamed nor taken away after a failed rename. */
  lemma TemporaryLeftIff(fs: Fs, source: Path, dest: Path, f: Faults, tmp: Path)
    requires Valid(fs) && dest != [] && tmp == dest[..|dest| - 1] + [".ccteam.new"] && dest != tmp
    requires !SameInode(fs, tmp, dest)
    ensures var cleared := if !f.stale then Remove(fs, tmp) else fs;
            var begun := At(cleared, source).File? && !f.copy.OpenFails?;
            var done := At(cleared, source).File? && f.copy.Whole? && !f.chmod && (!f.rename || !f.cleanup);
            tmp in LastOf(fs, Trail(fs, source, dest, f)).names
            <==> if f.mkdir then tmp in fs.names else ((f.stale && tmp in fs.names) || begun) && !done
  {
    if !f.mkdir {
      var cleared := Cleared(fs, tmp, f);
      assert tmp !in fs.names ==> Remove(fs, tmp).names == fs.names;
      var copying := Copying(cleared, source, tmp, f);
      if copying != [] { CopyEnds(cleared, source, dest, f); }
    }
  }

  lemma CopyEnds(fs: Fs, source: Path, dest: Path, f: Faults)
    requires Valid(fs) && dest != [] && Apart(fs, dest, dest) && Copying(fs, source, NewOf(dest), f) != []
    ensures var w := LastOf(fs, Copying(fs, source, NewOf(dest), f));
            NewOf(dest) in w.names && Apart(w, dest, dest)
  {
    var bytes := if source == NewOf(dest) || SameInode(fs, source, NewOf(dest)) then [] else At(fs, source).bytes;
    var landed := Landed(f.copy, bytes);
    WriteKeepsSharing(fs, NewOf(dest), landed, NewOf(dest), dest);
    assert landed[..|landed|] == landed;
  }

  /** Whatever else goes wrong, and at every state, the destination is whole; `stale` says
      whether removing a stale copy fails. */
  ghost predicate AlwaysWhole(fs: Fs, source: Path, dest: Path, stale: bool)
    requires dest != []
  {
    forall f: Faults, k: nat :: f.stale == stale && k < |Trail(fs, source, dest, f)|
      ==> IsWhole(fs, Trail(fs, source, dest, f)[k], source, dest)
  }

  /** There is nothing an alias could tear: no source, or files too small. */
  predicate NothingToTear(fs: Fs, source: Path, dest: Path)
    requires dest != []
  {
    match At(fs, source)
    case Missing => true
    case File(bytes) =>
      bytes == [] || (At(fs, dest) == File([]) && (!Apart(fs, dest, source) || |bytes| == 1))
  }

  /** Everything goes well but the removal of the stale copy. */
  function StaleOnly(): Faults {
    Faults(false, true, Whole, false, false, false)
  }

  /** The exact condition: the swap is atomic if and only if removing the stale copy works, or
      the temporary name shares its inode with neither end, or there is nothing to tear. */
  lemma AtomicIff(fs: Fs, source: Path, dest: Path, stale: bool)
    requires dest != [] && Valid(fs) && dest != NewOf(dest)
    ensures AlwaysWhole(fs, source, dest, stale) <==>
            || !stale
            || (Apart(fs, dest, dest) && Apart(fs, dest, source))
            || NothingToTear(fs, source, dest)
  {
    if !stale || (Apart(fs, dest, dest) && Apart(fs, dest, source)) {
      forall f: Faults, k: nat | f.stale == stale && k < |Trail(fs, source, dest, f)|
        ensures IsWhole(fs, Trail(fs, source, dest, f)[k], source, dest)
      {
        SwapIsAtomic(fs, source, dest, f, k);
      }
    } else if NothingToTear(fs, source, dest) {
      forall f: Faults, k: nat | f.stale == stale && k < |Trail(fs, source, dest, f)|
        ensures IsWhole(fs, Trail(fs, source, dest, f)[k], source, dest)
      {
        SmallIsWhole(fs, source, dest, f, k);
      }
    } else {
      var k := AliasTears(fs, source, dest);
      assert StaleOnly().stale == stale;
    }
  }

  /** The bytes a copy writes through an alias. */
  function Through(fs: Fs, source: Path, dest: Path): Bytes
    requires dest != [] && At(fs, source).File?
  {
    if Apart(fs, dest, source) then At(fs, source).bytes else []
  }

  lemma CopyingWrites(fs: Fs, source: Path, dest: Path, f: Faults, k: nat)
    requires dest != [] && Valid(fs) && dest != NewOf(dest) && At(fs, source).File?
    requires k < |Copying(fs, source, NewOf(dest), f)|
    ensures var mid, bytes := Copying(fs, source, NewOf(dest), f)[k], Landed(f.copy, Through(fs, source, dest));
            && k <= |bytes| && mid == Write(fs, NewOf(dest), bytes[..k]) && Valid(mid)
            && At(mid, NewOf(dest)) == File(bytes[..k])
            && At(mid, dest) == (if Apart(fs, dest, dest) then At(fs, dest) else File(bytes[..k]))
            && (Apart(mid, dest, dest) <==> Apart(fs, dest, dest))
  {
    var bytes := Landed(f.copy, Through(fs, source, dest));
    WriteShows(fs, NewOf(dest), bytes[..k], dest);
    WriteShows(fs, NewOf(dest), bytes[..k], NewOf(dest));
    WriteKeepsSharing(fs, NewOf(dest), bytes[..k], NewOf(dest), dest);
  }

  lemma SmallIsWhole(fs: Fs, source: Path, dest: Path, f: Faults, k: nat)
    requires dest != [] && Valid(fs) && dest != NewOf(dest) && f.stale
    requires !Apart(fs, dest, dest) || !Apart(fs, dest, source)
    requires NothingToTear(fs, source, dest) && k < |Trail(fs, source, dest, f)|
    ensures IsWhole(fs, Trail(fs, source, dest, f)[k], source, dest)
  {
    if k > 0 && At(fs, source).File? {
      var copying := Copying(fs, source, NewOf(dest), f);
      var bytes := Landed(f.copy, Through(fs, source, dest));
      if k <= |copying| {
        CopyingWrites(fs, source, dest, f, k - 1);
      } else {
        CopyingWrites(fs, source, dest, f, |copying| - 1);
        assert bytes[..|bytes|] == bytes;
        var copied := LastOf(fs, copying);
        assert Trail(fs, source, dest, f)[k] == Renaming(copied, dest, f)[k - 1 - |copying|];
        if Apart(copied, dest, dest) {
          RenamingSwaps(copied, dest, f, k - 1 - |copying|);
        } else {
          RemoveShows(copied, NewOf(dest), dest);
        }
      }
    }
  }

  /** With an alias and something to tear, one state of an otherwise good call is not whole. */
  lemma AliasTears(fs: Fs, source: Path, dest: Path) returns (k: nat)
    requires dest != [] && Valid(fs) && dest != NewOf(dest)
    requires !Apart(fs, dest, dest) || !Apart(fs, dest, source)
    requires !NothingToTear(fs, source, dest)
    ensures k < |Trail(fs, source, dest, StaleOnly())|
    ensures !IsWhole(fs, Trail(fs, source, dest, StaleOnly())[k], source, dest)
  {
    var f := StaleOnly();
    var copying := Copying(fs, source, NewOf(dest), f);
    var bytes := Through(fs, source, dest);
    assert |copying| == |bytes| + 1;
    if !Apart(fs, dest, dest) {
      k := if At(fs, dest) == File([]) then 2 else 1;
      CopyingWrites(fs, source, dest, f, k - 1);
    } else {
      CopyingWrites(fs, source, dest, f, 0);
      RenamingSwaps(LastOf(fs, copying), dest, f, 0);
      k := 2;
    }
  }

  // ---- Whole runs

  /** One attempt, which may be killed after some of its states. */
  datatype Attempt = Attempt(source: Path, faults: Faults, killedAfter: nat)

  function After(fs: Fs, dest: Path, a: Attempt): Fs
    requires dest != []
  {
    var t := Trail(fs, a.source, dest, a.faults);
    if a.killedAfter == 0 || t == [] then fs
    else if a.killedAfter <= |t| then t[a.killedAfter - 1] else t[|t| - 1]
  }

  function Run(fs: Fs, dest: Path, attempts: seq<Attempt>): Fs
    requires dest != []
    decreases |attempts|
  {
    if attempts == [] then fs else Run(After(fs, dest, attempts[0]), dest, attempts[1..])
  }

  /** Each attempt either removes a stale copy or finds it apart from the destination and from
      the sources still to be installed. */
  ghost predicate SafeRun(fs: Fs, dest: Path, attempts: seq<Attempt>)
    requires dest != []
    decreases |attempts|
  {
    attempts == []
    || ((attempts[0].faults.stale ==>
           Apart(fs, dest, dest) && forall a :: a in attempts ==> Apart(fs, dest, a.source))
        && SafeRun(After(fs, dest, attempts[0]), dest, attempts[1..]))
  }

  lemma AfterIsWhole(fs: Fs, dest: Path, a: Attempt)
    requires dest != [] && Valid(fs) && dest != NewOf(dest) && Clear(fs, a.source, dest, a.faults)
    ensures var next := After(fs, dest, a);
            && Valid(next) && IsWhole(fs, next, a.source, dest)
            && (At(next, dest) != At(fs, dest) ==> a.source != NewOf(dest))
            && (forall q :: q != dest && q != NewOf(dest) && (a.faults.stale ==> Apart(fs, dest, q)) ==>
                              At(next, q) == At(fs, q))
            && (Apart(fs, dest, dest) ==> Apart(next, dest, dest))
            && (forall q :: q != dest && Apart(fs, dest, q) ==> Apart(next, dest, q))
  {
    var t := Trail(fs, a.source, dest, a.faults);
    if a.killedAfter > 0 && t != [] {
      SwapIsAtomic(fs, a.source, dest, a.faults, (if a.killedAfter <= |t| then a.killedAfter else |t|) - 1);
    }
  }

  /** Main result: after any number of attempts, failed, killed at any point or complete, the
      destination holds what it held at first or one attempt's source as it was at first, in
      full. */
  lemma {:induction false} NeverPartial(fs: Fs, dest: Path, attempts: seq<Attempt>)
    requires dest != [] && Valid(fs) && dest != NewOf(dest) && SafeRun(fs, dest, attempts)
    ensures var last := Run(fs, dest, attempts);
            || At(last, dest) == At(fs, dest)
            || exists a :: && a in attempts && a.source != NewOf(dest) && At(fs, a.source).File?
                           && At(last, dest) == At(fs, a.source)
    decreases |attempts|
  {
    if attempts != [] {
      var a, rest := attempts[0], attempts[1..];
      var next := After(fs, dest, a);
      AfterIsWhole(fs, dest, a);
      NeverPartial(next, dest, rest);
      var last := Run(next, dest, rest);
      assert a in attempts && forall b :: b in rest ==> b in attempts;
      if At(last, dest) != At(next, dest) {
        var b :| b in rest && b.source != NewOf(dest)
                 && At(next, b.source).File? && At(last, dest) == At(next, b.source);
        assert b in attempts;
        assert b.source != dest;
        assert At(next, b.source) == At(fs, b.source);
      }
    }
  }

  lemma {:induction false} RunSnoc(fs: Fs, dest: Path, attempts: seq<Attempt>, a: Attempt)
    requires dest != []
    ensures Run(fs, dest, attempts + [a]) == After(Run(fs, dest, attempts), dest, a)
    decreases |attempts|
  {
    if attempts == [] {
      assert attempts + [a] == [a];
    } else {
      assert (attempts + [a])[1..] == attempts[1..] + [a];
      RunSnoc(After(fs, dest, attempts[0]), dest, attempts[1..], a);
    }
  }

  lemma NotKilled(fs: Fs, dest: Path, a: Attempt)
    requires dest != [] && a.killedAfter >= |Trail(fs, a.source, dest, a.faults)|
    ensures After(fs, dest, a) == LastOf(fs, Trail(fs, a.source, dest, a.faults))
  {
  }

  /** And the last attempt counts: whatever went wrong before, one that is not killed leaves its own
      source when it succeeds and what was there when it does not. */
  lemma LastAttemptCounts(fs: Fs, dest: Path, attempts: seq<Attempt>, a: Attempt)
    requires dest != [] && dest != NewOf(dest)
    requires var s := Run(fs, dest, attempts);
             Valid(s) && Clear(s, a.source, dest, a.faults) && a.killedAfter >= |Trail(s, a.source, dest, a.faults)|
    ensures var s := Run(fs, dest, attempts);
            At(Run(fs, dest, attempts + [a]), dest)
            == if Succeeds(s, a.source, dest, a.faults) then At(s, a.source) else At(s, dest)
  {
    hide Run, After, Trail, Succeeds, At, Clear;
    RunSnoc(fs, dest, attempts, a);
    NotKilled(Run(fs, dest, attempts), dest, a);
    VerdictIsRight(Run(fs, dest, attempts), a.source, dest, a.faults);
  }

  /** A temporary name that stands apart from the destination and all sources does so for good:
      what a caller can look at before the first attempt. */
  lemma {:induction false} ApartIsSafe(fs: Fs, dest: Path, attempts: seq<Attempt>)
    requires dest != [] && Valid(fs) && Apart(fs, dest, dest)
    requires forall a :: a in attempts ==> Apart(fs, dest, a.source)
    ensures SafeRun(fs, dest, attempts)
    decreases |attempts|
  {
    if attempts != [] {
      var rest := attempts[1..];
      AfterIsWhole(fs, dest, attempts[0]);
      assert forall b :: b in rest ==> b in attempts;
      ApartIsSafe(After(fs, dest, attempts[0]), dest, rest);
    }
  }

  /** And so do attempts whose removals all work, whatever the name is linked to. */
  lemma {:induction false} RemovingIsSafe(fs: Fs, dest: Path, attempts: seq<Attempt>)
    requires dest != [] && forall a :: a in attempts ==> !a.faults.stale
    ensures SafeRun(fs, dest, attempts)
    decreases |attempts|
  {
    if attempts != [] { RemovingIsSafe(After(fs, dest, attempts[0]), dest, attempts[1..]); }
  }

  /** What tears first: with the binary itself behind the temporary name and no removal, opening
      the copy empties the binary in place. */
  lemma AliasEmptiesTheBinary(fs: Fs, source: Path, dest: Path, f: Faults)
    requires dest != [] && Valid(fs) && SameInode(fs, NewOf(dest), dest) && At(fs, source).File?
    requires f.stale && !f.mkdir && !f.copy.OpenFails?
    ensures |Trail(fs, source, dest, f)| > 1 && At(Trail(fs, source, dest, f)[1], dest) == File([])
  {
    WriteShows(fs, NewOf(dest), [], dest);
  }
}
