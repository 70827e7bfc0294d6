/**
 Publishing a file of the skill library (crates/ccteam-core/src/admin_actions.rs): a complete
 temporary file, then a rename (force) or a hard link (create if absent) onto the real name.
 */
module LibraryWriter {
  import opened Octets
  import opened InodeFs
  import opened Disk
  import opened Text
  import opened SkillIds

  const MARKDOWN := "SKILL.md"

  // ---- Names

  /** Where library content may live: no hidden segment. */
  predicate Publishable(p: Path) {
    p != [] && forall i :: 0 <= i < |p| ==> ValidFileSegment(p[i])
  }

  function TmpOf(p: Path): Path
    requires p != []
  {
    p[..|p| - 1] + ["." + p[|p| - 1] + ".tmp"]
  }

  ghost predicate IsTmp(t: Path) {
    exists p: Path :: p != [] && TmpOf(p) == t
  }

  function SkillPath(id: string): Path {
    Split(id, '/') + [MARKDOWN]
  }

  function FilePath(id: string, relpath: string): Path {
    Split(id, '/') + Split(relpath, '/')
  }

  /** The paths as text: the id, a slash, and the name of the file. */
  lemma PathsAreTexts(id: string, relpath: string)
    ensures Join(SkillPath(id), '/') == id + "/SKILL.md"
    ensures Join(FilePath(id, relpath), '/') == id + "/" + relpath
  {
    JoinTwo(Split(id, '/'), [MARKDOWN], '/');
    JoinTwo(Split(id, '/'), Split(relpath, '/'), '/');
    JoinOfSplit(id, '/');
    JoinOfSplit(relpath, '/');
  }

  lemma {:induction false} JoinTwo<T>(a: seq<seq<T>>, b: seq<seq<T>>, sep: T)
    requires a != [] && b != []
    ensures Join(a + b, sep) == Join(a, sep) + [sep] + Join(b, sep)
  {
    if |a| == 1 {
      assert (a + b)[1..] == b;
    } else {
      assert (a + b)[1..] == a[1..] + b;
      JoinTwo(a[1..], b, sep);
      var x, y, z := a[0] + [sep], Join(a[1..], sep), Join(b, sep);
      assert x + (y + [sep] + z) == x + y + [sep] + z;
    }
  }

  /** The temporary name as text: hidden, beside the file. */
  lemma TmpIsText(dir: Path, name: string)
    requires dir != []
    ensures Join(TmpOf(dir + [name]), '/') == Join(dir, '/') + "/." + name + ".tmp"
  {
    assert (dir + [name])[..|dir|] == dir;
    JoinTwo(dir, ["." + name + ".tmp"], '/');
    assert Join(dir, '/') + ['/'] + ("." + name + ".tmp") == Join(dir, '/') + "/." + name + ".tmp";
  }

  /** Different ids have different files. */
  lemma SkillsApart(a: string, b: string)
    ensures SkillPath(a) == SkillPath(b) <==> a == b
  {
    PathsAreTexts(a, "");
    PathsAreTexts(b, "");
    assert (a + "/SKILL.md")[..|a|] == a && (b + "/SKILL.md")[..|b|] == b;
  }

  /** What the validators accept is publishable, so it never is a temporary name. */
  lemma ValidatedPathsArePublishable(id: string, relpath: string)
    requires ValidId(id)
    ensures Publishable(SkillPath(id))
    ensures ValidRelpath(relpath) ==> Publishable(FilePath(id, relpath))
    ensures !IsTmp(SkillPath(id)) && (ValidRelpath(relpath) ==> !IsTmp(FilePath(id, relpath)))
  {
    var s := Split(id, '/');
    forall i | 0 <= i < |s| ensures ValidFileSegment(s[i]) {
      assert ValidSegment(s[i]);
    }
    if ValidRelpath(relpath) { TmpIsHidden(FilePath(id, relpath)); }
    TmpIsHidden(SkillPath(id));
  }

  lemma TmpIsHidden(p: Path)
    requires Publishable(p)
    ensures !IsTmp(p)
  {
    assert ValidFileSegment(p[|p| - 1]);
    forall q: Path | q != [] ensures TmpOf(q) != p {
      assert |TmpOf(q)| == |p| ==> TmpOf(q)[|p| - 1][0] == '.';
    }
  }

  lemma TmpOfIsTmp(p: Path)
    requires p != []
    ensures IsTmp(TmpOf(p))
  {
  }

  /** Different files have different temporary names. */
  lemma TmpNamesApart(p: Path, q: Path)
    requires p != [] && q != [] && TmpOf(p) == TmpOf(q)
    ensures p == q
  {
    var n, a, b := |p| - 1, p[|p| - 1], q[|p| - 1];
    assert TmpOf(p)[n] == TmpOf(q)[n];
    assert ("." + a + ".tmp")[1..|a| + 1] == a && ("." + b + ".tmp")[1..|b| + 1] == b;
    assert p[..n] == TmpOf(p)[..n] == TmpOf(q)[..n] == q[..n];
  }

  // ---- One call

  /** What goes wrong in one call: creating the directories, the write, the rename or link (for
      a reason other than an existing file), and each of the two removals. */
  datatype Faults = Faults(mkdir: bool, write: Writing, publish: bool, remove1: bool, remove2: bool)

  /** A call either returns or is killed after some of the states it goes through. */
  datatype End = Completed | Killed(after: nat)

  datatype Call = Call(path: Path, bytes: Bytes, force: bool, faults: Faults, end: End)

  /** Removing the temporary file, and a second time if the first attempt failed. */
  function Cleaned(fs: Fs, tmp: Path, f: Faults): seq<Fs> {
    if !f.remove1 && tmp in fs.names then [Remove(fs, tmp)]
    else if !f.remove2 && tmp in fs.names then [fs, Remove(fs, tmp)]
    else [fs, fs]
  }

  /** The states after the temporary file is complete. */
  function Publishing(fs: Fs, c: Call): seq<Fs>
    requires c.path != []
  {
    var tmp, f := TmpOf(c.path), c.faults;
    if c.force then
      if !f.publish && tmp in fs.names then [Rename(fs, tmp, c.path)]
      else [fs, if !f.remove2 && tmp in fs.names then Remove(fs, tmp) else fs]
    else if !f.publish && c.path in fs.names then
      [fs, if !f.remove1 && tmp in fs.names then Remove(fs, tmp) else fs]
    else if !f.publish && tmp in fs.names then
      var linked := Link(fs, tmp, c.path);
      [linked] + Cleaned(linked, tmp, f)
    else
      var once := if !f.remove1 && tmp in fs.names then Remove(fs, tmp) else fs;
      [fs, once, if !f.remove2 && tmp in once.names then Remove(once, tmp) else once]
  }

  /** Every state of one call that is not killed. */
  function Trail(fs: Fs, c: Call): seq<Fs>
    requires c.path != []
  {
    if c.faults.mkdir then []
    else
      var writing := Written(fs, TmpOf(c.path), c.bytes, c.faults.write);
      if !c.faults.write.Whole? then writing
      else writing + Publishing(LastOf(fs, writing), c)
  }

  function After(fs: Fs, c: Call): Fs
    requires c.path != []
  {
    var t := Trail(fs, c);
    if c.end.Completed? || c.end.after > |t| then LastOf(fs, t) else LastOf(fs, t[..c.end.after])
  }

  /** Whether the call reports success. */
  predicate Succeeds(fs: Fs, c: Call) {
    && !c.faults.mkdir && c.faults.write.Whole? && !c.faults.publish
    && (c.force || (c.path !in fs.names && !c.faults.remove1))
  }

  /** The call, in the source's form. */
  method AtomicWrite(v: Volume, c: Call) returns (ok: bool)
    requires Publishable(c.path)
    modifies v
    ensures v.trail == old(v.trail) + Trail(old(v.fs), c)
    ensures v.fs == LastOf(old(v.fs), Trail(old(v.fs), c))
    ensures ok <==> Succeeds(old(v.fs), c)
  {
    if c.faults.mkdir { return false; }
    ghost var start := v.fs;
    var wrote := v.WriteFile(TmpOf(c.path), c.bytes, c.faults.write);
    if !wrote { return false; }
    TmpIsNotPath(c.path);
    WholeWrite(start, TmpOf(c.path), c.bytes);
    ghost var before := v.trail;
    ok := Publish(v, c);
    assert before + Publishing(Write(start, TmpOf(c.path), c.bytes), c) == old(v.trail) + Trail(start, c);
  }

  method Publish(v: Volume, c: Call) returns (ok: bool)
    requires c.path != [] && TmpOf(c.path) in v.fs.names && TmpOf(c.path) != c.path
    modifies v
    ensures v.trail == old(v.trail) + Publishing(old(v.fs), c)
    ensures v.fs == LastOf(old(v.fs), Publishing(old(v.fs), c))
    ensures ok <==> !c.faults.publish && (c.force || (c.path !in old(v.fs).names && !c.faults.remove1))
  {
    var tmp, f := TmpOf(c.path), c.faults;
    if c.force {
      ok := v.RenameFile(tmp, c.path, f.publish);
    } else {
      var linked, exists_ := v.LinkFile(tmp, c.path, f.publish);
      ok := v.RemoveFile(tmp, f.remove1);
      if exists_ { return false; }
      ok := ok && linked;
    }
    if !ok {
      var _ := v.RemoveFile(tmp, f.remove2);
    }
  }

  lemma TmpIsNotPath(p: Path)
    requires Publishable(p)
    ensures TmpOf(p) != p
  {
    TmpIsHidden(p);
    TmpOfIsTmp(p);
  }

  /** A whole write ends with exactly its bytes in the file. */
  lemma WholeWrite(fs: Fs, p: Path, bytes: Bytes)
    ensures LastOf(fs, Written(fs, p, bytes, Whole)) == Write(fs, p, bytes)
    ensures |Written(fs, p, bytes, Whole)| == |bytes| + 1
  {
    assert bytes[..|bytes|] == bytes;
  }

  /** A write that stops has left a prefix of its bytes, byte after byte, and one that cannot open
      nothing. */
  lemma WriteStops(fs: Fs, p: Path, bytes: Bytes, k: nat, j: nat)
    ensures Written(fs, p, bytes, OpenFails) == []
    ensures var states := Written(fs, p, bytes, Stops(k));
            && |states| == (if k <= |bytes| then k else |bytes|) + 1
            && (j < |states| ==> states[j] == Write(fs, p, bytes[..j]))
  {
    if k <= |bytes| && j <= k { assert bytes[..k][..j] == bytes[..j]; }
  }

  // ---- The two callers

  /** `SKILL.md`: refused, with nothing touched, when the id is invalid or the content blank. */
  method WriteLibrarySkill(v: Volume, id: string, content: string, encode: string -> Bytes, force: bool, f: Faults)
    returns (ok: bool)
    modifies v
    ensures var accepted := ValidId(id) && exists i :: 0 <= i < |content| && !IsWhitespace(content[i]);
            var c := Call(SkillPath(id), encode(content), force, f, Completed);
            && v.fs == LastOf(old(v.fs), if accepted then Trail(old(v.fs), c) else [])
            && (ok <==> accepted && Succeeds(old(v.fs), c))
  {
    TrimEmptyMeansBlank(content);
    if !ValidId(id) || Trim(content) == "" { return false; }
    ValidatedPathsArePublishable(id, "");
    ok := AtomicWrite(v, Call(SkillPath(id), encode(content), force, f, Completed));
  }

  /** One more file of a skill: refused when the id or the relative path is invalid. */
  method WriteLibrarySkillFile(v: Volume, id: string, relpath: string, bytes: Bytes, force: bool, f: Faults)
    returns (ok: bool)
    modifies v
    ensures var accepted := ValidId(id) && ValidRelpath(relpath);
            var c := Call(FilePath(id, relpath), bytes, force, f, Completed);
            && v.fs == LastOf(old(v.fs), if accepted then Trail(old(v.fs), c) else [])
            && (ok <==> accepted && Succeeds(old(v.fs), c))
  {
    if !ValidId(id) || !ValidRelpath(relpath) { return false; }
    ValidatedPathsArePublishable(id, relpath);
    ok := AtomicWrite(v, Call(FilePath(id, relpath), bytes, force, f, Completed));
  }

  lemma TrimEmptyMeansBlank(s: string)
    ensures Trim(s) != "" <==> exists i :: 0 <= i < |s| && !IsWhitespace(s[i])
  {
    var left, right := TrimSides(s);
    if Trim(s) != "" { assert s[|left|] == Trim(s)[0]; }
  }
}
