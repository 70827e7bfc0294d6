/**
 The claim of the library writer: over any sequence of calls, returned or killed, a call
 without `force` leaves every existing file alone and a forced call changes its own path only,
 for as long as no call leaves its temporary name linked to the file it published.
 */
module LibraryNoClobber {
  import opened Octets
  import opened InodeFs
  import opened Disk
  import opened LibraryWriter
  import opened SkillIds
  import opened Text

  // ---- The library as its readers see it

  ghost function Library(fs: Fs): map<Path, Bytes> {
    map p | p in fs.names && fs.names[p] in fs.data && Publishable(p) :: fs.data[fs.names[p]]
  }

  /** Between calls no temporary name shares its inode. */
  ghost predicate Clean(fs: Fs) {
    Valid(fs) && forall t :: IsTmp(t) ==> Private(fs, t)
  }

  /** Whether the call, as far as it gets, publishes its bytes. */
  predicate Lands(lib: map<Path, Bytes>, c: Call) {
    && !c.faults.mkdir && c.faults.write.Whole? && !c.faults.publish
    && (c.force || c.path !in lib)
    && (c.end.Completed? || c.end.after >= |c.bytes| + 2)
  }

  /** Whether it then goes without taking its temporary name away: both removals fail, or it is
      killed in between. */
  predicate Leaks(lib: map<Path, Bytes>, c: Call) {
    && Lands(lib, c) && !c.force
    && (!c.faults.remove1 ==> c.end.Killed? && c.end.after < |c.bytes| + 3)
    && (c.faults.remove1 && !c.faults.remove2 ==> c.end.Killed? && c.end.after < |c.bytes| + 4)
  }

  function Intended(lib: map<Path, Bytes>, c: Call): map<Path, Bytes> {
    if Lands(lib, c) then lib[c.path := c.bytes] else lib
  }

  // ---- State by state

  lemma TmpWriteIsUnseen(fs: Fs, path: Path, bytes: Bytes)
    requires Clean(fs) && Publishable(path)
    ensures var w := Write(fs, TmpOf(path), bytes);
            Clean(w) && Library(w) == Library(fs) && At(w, TmpOf(path)) == File(bytes)
  {
    var tmp := TmpOf(path);
    var w := Write(fs, tmp, bytes);
    TmpOfIsTmp(path);
    WriteShows(fs, tmp, bytes, tmp);
    forall q ensures Publishable(q) ==> At(w, q) == At(fs, q) && (q in w.names <==> q in fs.names) {
      WriteShows(fs, tmp, bytes, q);
      if Publishable(q) { TmpIsHidden(q); }
    }
    forall t, q | IsTmp(t) && q != t ensures !SameInode(w, t, q) {
      WriteKeepsSharing(fs, tmp, bytes, t, q);
    }
  }

  lemma RenamePublishes(fs: Fs, path: Path, bytes: Bytes)
    requires Clean(fs) && Publishable(path) && At(fs, TmpOf(path)) == File(bytes)
    ensures var r := Rename(fs, TmpOf(path), path);
            Clean(r) && Library(r) == Library(fs)[path := bytes]
  {
    TmpOfIsTmp(path);
    TmpIsNotPath(path);
    var r := Rename(fs, TmpOf(path), path);
    RenameShows(fs, TmpOf(path), path, path);
    forall q ensures Publishable(q) && q != path ==> At(r, q) == At(fs, q) && (q in r.names <==> q in fs.names) {
      RenameShows(fs, TmpOf(path), path, q);
      if Publishable(q) { TmpIsHidden(q); }
    }
    TmpIsHidden(path);
    forall t, q | IsTmp(t) && q != t ensures !SameInode(r, t, q) {
      assert !SameInode(fs, t, q) && (t != TmpOf(path) ==> !SameInode(fs, t, TmpOf(path)));
    }
  }

  lemma LinkPublishes(fs: Fs, path: Path, bytes: Bytes)
    requires Clean(fs) && Publishable(path) && At(fs, TmpOf(path)) == File(bytes) && path !in fs.names
    ensures var l := Link(fs, TmpOf(path), path);
            && Valid(l) && !Clean(l) && Library(l) == Library(fs)[path := bytes]
            && Clean(Remove(l, TmpOf(path))) && Library(Remove(l, TmpOf(path))) == Library(l)
  {
    var tmp := TmpOf(path);
    TmpOfIsTmp(path);
    TmpIsHidden(path);
    var l := Link(fs, tmp, path);
    assert SameInode(l, tmp, path);
    forall q ensures At(l, q) == if q == path then File(bytes) else At(fs, q) { LinkShows(fs, tmp, path, q); }
    var r := Remove(l, tmp);
    forall q | q != tmp ensures At(r, q) == At(l, q) { RemoveShows(l, tmp, q); }
    forall t, q | IsTmp(t) && q != t ensures !SameInode(r, t, q) {
      assert !SameInode(fs, t, q) && (t != tmp ==> !SameInode(fs, t, tmp));
    }
    assert Library(r) == Library(l);
  }

  lemma RemoveIsUnseen(fs: Fs, path: Path)
    requires Clean(fs) && Publishable(path)
    ensures Clean(Remove(fs, TmpOf(path))) && Library(Remove(fs, TmpOf(path))) == Library(fs)
  {
    TmpOfIsTmp(path);
    var r := Remove(fs, TmpOf(path));
    forall t, q | IsTmp(t) && q != t ensures !SameInode(r, t, q) { assert !SameInode(fs, t, q); }
    forall q ensures Publishable(q) ==> q != TmpOf(path) {
      if Publishable(q) { TmpIsHidden(q); }
    }
  }

  /** What one state shows: the library before or after, with the temporary name leaked or
      not. */
  ghost predicate Shows(fs: Fs, lib: map<Path, Bytes>, leaked: bool) {
    Valid(fs) && Library(fs) == lib && (Clean(fs) <==> !leaked)
  }

  /** The number of states the call goes through. */
  function Reached(fs: Fs, c: Call): nat
    requires c.path != []
  {
    if c.end.Completed? || c.end.after > |Trail(fs, c)| then |Trail(fs, c)| else c.end.after
  }

  lemma AfterIsReached(fs: Fs, c: Call)
    requires c.path != []
    ensures After(fs, c) == if Reached(fs, c) == 0 then fs else Trail(fs, c)[Reached(fs, c) - 1]
  {
    assert Trail(fs, c)[..|Trail(fs, c)|] == Trail(fs, c);
  }

  lemma WritingState(fs: Fs, c: Call, k: nat)
    requires Clean(fs) && Publishable(c.path) && k < |Trail(fs, c)|
    requires c.faults.write.Whole? ==> k <= |c.bytes|
    ensures Shows(Trail(fs, c)[k], Library(fs), false)
  {
    TmpWriteIsUnseen(fs, c.path, Landed(c.faults.write, c.bytes)[..k]);
  }

  lemma PublishingShows(fs: Fs, c: Call, k: nat)
    requires Clean(fs) && Publishable(c.path) && At(fs, TmpOf(c.path)) == File(c.bytes)
    requires k < |Publishing(fs, c)|
    ensures var lib := Library(fs);
            var landed := !c.faults.publish && (c.force || c.path !in lib);
            Shows(Publishing(fs, c)[k], if landed then lib[c.path := c.bytes] else lib,
                  landed && !c.force && (if c.faults.remove1 then c.faults.remove2 || k < 2 else k < 1))
  {
    var tmp := TmpOf(c.path);
    TmpIsNotPath(c.path);
    RemoveIsUnseen(fs, c.path);
    assert c.path in Library(fs) <==> c.path in fs.names;
    if !c.faults.publish {
      if c.force { RenamePublishes(fs, c.path, c.bytes); }
      else if c.path !in fs.names { LinkPublishes(fs, c.path, c.bytes); }
    }
  }

  lemma PublishingState(fs: Fs, c: Call, k: nat)
    requires Clean(fs) && Publishable(c.path) && c.faults.write.Whole? && |c.bytes| < k < |Trail(fs, c)|
    ensures Shows(Trail(fs, c)[k], Intended(Library(fs), c.(end := Killed(k + 1))),
                  Leaks(Library(fs), c.(end := Killed(k + 1))))
  {
    WholeWrite(fs, TmpOf(c.path), c.bytes);
    TmpWriteIsUnseen(fs, c.path, c.bytes);
    PublishingShows(Write(fs, TmpOf(c.path), c.bytes), c, k - 1 - |c.bytes|);
  }

  lemma StateShows(fs: Fs, c: Call, k: nat)
    requires Clean(fs) && Publishable(c.path) && k < |Trail(fs, c)|
    ensures Shows(Trail(fs, c)[k], Intended(Library(fs), c.(end := Killed(k + 1))),
                  Leaks(Library(fs), c.(end := Killed(k + 1))))
  {
    if c.faults.write.Whole? && |c.bytes| < k { PublishingState(fs, c, k); } else { WritingState(fs, c, k); }
  }

  /** Being killed after the last state is the same as returning. */
  lemma ReachedIsEnd(fs: Fs, c: Call)
    requires Valid(fs) && Publishable(c.path)
    ensures var cut := c.(end := Killed(Reached(fs, c)));
            && Intended(Library(fs), cut) == Intended(Library(fs), c)
            && (Leaks(Library(fs), cut) <==> Leaks(Library(fs), c))
  {
    assert c.path in Library(fs) <==> c.path in fs.names;
    TmpIsNotPath(c.path);
    if c.faults.write.Whole? { WholeWrite(fs, TmpOf(c.path), c.bytes); }
  }

  /** Main step: from a clean disk, however far a call gets and whatever fails, readers see
      the library before it or the library with its bytes published, decided by the call
      alone; and the disk is clean again exactly when the call does not leak. */
  lemma CallRefines(fs: Fs, c: Call)
    requires Clean(fs) && Publishable(c.path)
    ensures Valid(After(fs, c))
    ensures Library(After(fs, c)) == Intended(Library(fs), c)
    ensures Clean(After(fs, c)) <==> !Leaks(Library(fs), c)
  {
    AfterIsReached(fs, c);
    ReachedIsEnd(fs, c);
    if Reached(fs, c) > 0 { StateShows(fs, c, Reached(fs, c) - 1); }
  }

  /** Only the file of that text path can have changed, and it changes to the call's bytes. */
  ghost predicate ChangesOnly(fs: Fs, after: Fs, text: string, bytes: Bytes) {
    forall q :: Publishable(q) ==>
      At(after, q) == At(fs, q) || (Join(q, '/') == text && At(after, q) == File(bytes))
  }

  /** Main result on the two callers: from a clean disk, however far it gets and whatever fails, an
      accepted call for `SKILL.md` changes at most the library file `<id>/SKILL.md`, and one for
      another file at most `<id>/<relpath>`, to the bytes it was given; and it does change it when
      it lands. */
  lemma CallersChangeOneFile(fs: Fs, id: string, relpath: string, c: Call)
    requires Clean(fs) && ValidId(id)
    requires c.path == SkillPath(id) || (ValidRelpath(relpath) && c.path == FilePath(id, relpath))
    ensures var text := if c.path == SkillPath(id) then id + "/SKILL.md" else id + "/" + relpath;
            && ChangesOnly(fs, After(fs, c), text, c.bytes)
            && (Lands(Library(fs), c) ==>
                  Join(c.path, '/') == text && At(After(fs, c), c.path) == File(c.bytes))
  {
    ValidatedPathsArePublishable(id, relpath);
    PathsAreTexts(id, relpath);
    CallRefines(fs, c);
    var before, after := Library(fs), Library(After(fs, c));
    forall q | Publishable(q)
      ensures At(After(fs, c), q) == At(fs, q) || (q == c.path && At(After(fs, c), q) == File(c.bytes))
    {
      assert q in before <==> At(fs, q).File?;
      assert q in after <==> At(After(fs, c), q).File?;
    }
    if Lands(before, c) { assert c.path in after; }
  }

  /** Every state on the way shows the old library or the intended one, never a partial file. */
  lemma NeverPartial(fs: Fs, c: Call, k: nat)
    requires Clean(fs) && Publishable(c.path) && k < |Trail(fs, c)|
    ensures Library(Trail(fs, c)[k]) in {Library(fs), Library(fs)[c.path := c.bytes]}
  {
    var cut := c.(end := Killed(k + 1));
    assert Trail(fs, cut) == Trail(fs, c);
    AfterIsReached(fs, cut);
    CallRefines(fs, cut);
  }

  /** Exactly when a returning call leaves its temporary file behind. */
  lemma TmpLeftIff(fs: Fs, c: Call)
    requires Clean(fs) && Publishable(c.path) && c.end.Completed?
    ensures var f, tmp := c.faults, TmpOf(c.path);
            tmp in After(fs, c).names <==>
            if f.mkdir || f.write.OpenFails? then tmp in fs.names
            else if !f.write.Whole? then true
            else if c.force then f.publish && f.remove2
            else f.remove1 && (f.remove2 || (!f.publish && c.path in fs.names))
  {
    var tmp := TmpOf(c.path);
    AfterIsReached(fs, c);
    TmpIsNotPath(c.path);
    if !c.faults.mkdir && c.faults.write.Whole? {
      WholeWrite(fs, tmp, c.bytes);
      TmpWriteIsUnseen(fs, c.path, c.bytes);
      TmpOfIsTmp(c.path);
      PublishingLeaves(Write(fs, tmp, c.bytes), c);
    }
  }

  lemma PublishingLeaves(fs: Fs, c: Call)
    requires Clean(fs) && Publishable(c.path) && TmpOf(c.path) in fs.names && TmpOf(c.path) != c.path
    requires IsTmp(TmpOf(c.path))
    ensures var f := c.faults;
            TmpOf(c.path) in LastOf(fs, Publishing(fs, c)).names
            <==> if c.force then f.publish && f.remove2
                 else f.remove1 && (f.remove2 || (!f.publish && c.path in fs.names))
  {
  }

  // ---- Whole runs

  function Run(fs: Fs, calls: seq<Call>): Fs
    requires forall i :: 0 <= i < |calls| ==> calls[i].path != []
    decreases |calls|
  {
    if calls == [] then fs else Run(After(fs, calls[0]), calls[1..])
  }

  /** The library a run means: a map, changed by the calls that land. */
  function Meant(lib: map<Path, Bytes>, calls: seq<Call>): map<Path, Bytes>
    decreases |calls|
  {
    if calls == [] then lib else Meant(Intended(lib, calls[0]), calls[1..])
  }

  predicate NothingLeaks(lib: map<Path, Bytes>, calls: seq<Call>)
    decreases |calls|
  {
    calls == [] || (!Leaks(lib, calls[0]) && NothingLeaks(Intended(lib, calls[0]), calls[1..]))
  }

  ghost predicate Proper(calls: seq<Call>) {
    forall i :: 0 <= i < |calls| ==> Publishable(calls[i].path)
  }

  /** Main result: any run in which no call leaks means exactly its map. */
  lemma {:induction false} RunRefines(fs: Fs, calls: seq<Call>)
    requires Clean(fs) && Proper(calls) && NothingLeaks(Library(fs), calls)
    ensures Clean(Run(fs, calls)) && Library(Run(fs, calls)) == Meant(Library(fs), calls)
    decreases |calls|
  {
    if calls != [] {
      CallRefines(fs, calls[0]);
      RunRefines(After(fs, calls[0]), calls[1..]);
    }
  }

  lemma {:induction false} MeantKeeps(lib: map<Path, Bytes>, calls: seq<Call>, p: Path)
    requires p in lib && forall i :: 0 <= i < |calls| ==> calls[i].force ==> calls[i].path != p
    ensures p in Meant(lib, calls) && Meant(lib, calls)[p] == lib[p]
    decreases |calls|
  {
    if calls != [] { MeantKeeps(Intended(lib, calls[0]), calls[1..], p); }
  }

  /** No clobbering: a file in the library keeps its bytes through any run in which no call is
      forced at that very path, whatever else the run writes. */
  lemma NoClobber(fs: Fs, calls: seq<Call>, p: Path)
    requires Clean(fs) && Proper(calls) && NothingLeaks(Library(fs), calls)
    requires p in Library(fs) && forall i :: 0 <= i < |calls| ==> calls[i].force ==> calls[i].path != p
    ensures p in Library(Run(fs, calls)) && Library(Run(fs, calls))[p] == Library(fs)[p]
  {
    RunRefines(fs, calls);
    MeantKeeps(Library(fs), calls, p);
  }

  /** What the caller is told: success means published and cleaned up; an error means nothing
      was published, except when only the first removal after a link failed. */
  lemma VerdictIsRight(fs: Fs, c: Call)
    requires Valid(fs) && Publishable(c.path) && c.end.Completed?
    ensures Succeeds(fs, c) ==> Lands(Library(fs), c) && !Leaks(Library(fs), c)
    ensures !Succeeds(fs, c) && Lands(Library(fs), c) <==> Lands(Library(fs), c) && !c.force && c.faults.remove1
  {
    assert c.path in Library(fs) <==> c.path in fs.names;
  }

  // ---- When the claim fails

  /** No unforced call can change what any file holds. */
  ghost predicate Unclobberable(fs: Fs) {
    forall c: Call, q :: !c.force && Publishable(c.path) && q in Library(fs)
      ==> At(After(fs, c), q) == At(fs, q)
  }

  /** No temporary name is a second name of a library file. */
  ghost predicate NoAlias(fs: Fs) {
    forall p, q :: Publishable(p) && Publishable(q) ==> !SameInode(fs, TmpOf(p), q)
  }

  lemma UnforcedStateKeeps(fs: Fs, c: Call, k: nat, q: Path)
    requires Valid(fs) && NoAlias(fs) && Publishable(c.path) && !c.force && q in Library(fs) && k < |Trail(fs, c)|
    ensures At(Trail(fs, c)[k], q) == At(fs, q)
  {
    var tmp := TmpOf(c.path);
    var writing := Written(fs, tmp, c.bytes, c.faults.write);
    TmpIsHidden(q);
    TmpOfIsTmp(c.path);
    if k < |writing| {
      WriteShows(fs, tmp, Landed(c.faults.write, c.bytes)[..k], q);
    } else {
      WholeWrite(fs, tmp, c.bytes);
      WriteShows(fs, tmp, c.bytes, q);
    }
  }

  /** The exact condition: unforced calls are harmless on a disk if and only if no temporary
      name aliases a library file. */
  lemma UnclobberableIff(fs: Fs)
    requires Valid(fs)
    ensures Unclobberable(fs) <==> NoAlias(fs)
  {
    if NoAlias(fs) {
      forall c: Call, q | !c.force && Publishable(c.path) && q in Library(fs)
        ensures At(After(fs, c), q) == At(fs, q)
      {
        AfterIsReached(fs, c);
        if Reached(fs, c) > 0 { UnforcedStateKeeps(fs, c, Reached(fs, c) - 1, q); }
      }
    } else {
      var p, q :| Publishable(p) && Publishable(q) && SameInode(fs, TmpOf(p), q);
      var other: Bytes := if At(fs, q) == File([]) then [0] else [];
      var c := Overwriting(p, other);
      WholeWrite(fs, TmpOf(p), other);
      AfterIsReached(fs, c);
      WriteShows(fs, TmpOf(p), other, q);
      assert q in Library(fs);
      assert !Unclobberable(fs);
    }
  }

  /** An unforced write that stops once its temporary file is complete. */
  function Overwriting(p: Path, bytes: Bytes): Call {
    Call(p, bytes, false, Faults(false, Whole, false, false, false), Killed(|bytes| + 1))
  }

  /** And a leak is all it takes: after one, a plain unforced call to the same path is refused,
      yet the file then holds the refused bytes. */
  lemma LeakLetsARefusedWriteThrough(fs: Fs, c: Call, bytes: Bytes)
    requires Clean(fs) && Publishable(c.path) && Leaks(Library(fs), c)
    ensures var again := Call(c.path, bytes, false, Faults(false, Whole, false, false, false), Completed);
            var leaked := After(fs, c);
            && At(leaked, c.path) == File(c.bytes)
            && !Succeeds(leaked, again)
            && At(After(leaked, again), c.path) == File(bytes)
  {
    var tmp := TmpOf(c.path);
    CallRefines(fs, c);
    var leaked := After(fs, c);
    LeakIsAlias(fs, c);
    var again := Call(c.path, bytes, false, Faults(false, Whole, false, false, false), Completed);
    WholeWrite(leaked, tmp, bytes);
    TmpIsNotPath(c.path);
    var w := Write(leaked, tmp, bytes);
    WriteShows(leaked, tmp, bytes, c.path);
    RemoveShows(w, tmp, c.path);
    AfterIsReached(leaked, again);
    assert Trail(leaked, again)[|Trail(leaked, again)| - 1] == Remove(w, tmp);
  }

  lemma LeakIsAlias(fs: Fs, c: Call)
    requires Clean(fs) && Publishable(c.path) && Leaks(Library(fs), c)
    ensures Valid(After(fs, c)) && SameInode(After(fs, c), TmpOf(c.path), c.path)
    ensures At(After(fs, c), c.path) == File(c.bytes)
  {
    CallRefines(fs, c);
    var a := After(fs, c);
    assert c.path in Library(a);
    WholeWrite(fs, TmpOf(c.path), c.bytes);
    TmpIsNotPath(c.path);
    AfterIsReached(fs, c);
    var w := Write(fs, TmpOf(c.path), c.bytes);
    var k := Reached(fs, c) - 2 - |c.bytes|;
    assert a == Publishing(w, c)[k];
  }
}
