/** The mounted disk the two publishers work on, one method per system call. */
module Disk {
  import opened Octets
  import opened InodeFs

  /** How a whole-file write ends: it fails to open, stops after some bytes, or completes. */
  datatype Writing = OpenFails | Stops(after: nat) | Whole

  /** The bytes that reach the file. */
  function Landed(w: Writing, bytes: Bytes): Bytes {
    match w
    case OpenFails => []
    case Stops(k) => if k <= |bytes| then bytes[..k] else bytes
    case Whole => bytes
  }

  /** The states a write goes through. */
  function Written(fs: Fs, p: Path, bytes: Bytes, w: Writing): seq<Fs> {
    if w.OpenFails? then [] else WriteStates(fs, p, Landed(w, bytes))
  }

  function LastOf(fs: Fs, states: seq<Fs>): Fs {
    if states == [] then fs else states[|states| - 1]
  }

  class Volume {
    var fs: Fs
    /** Every state the disk went through, so every state a crash can leave. */
    ghost var trail: seq<Fs>

    constructor (fs: Fs)
      ensures this.fs == fs && trail == []
    {
      this.fs := fs;
      trail := [];
    }

    /** `std::fs::write`, byte by byte. */
    method WriteFile(p: Path, bytes: Bytes, w: Writing) returns (ok: bool)
      modifies this
      ensures trail == old(trail) + Written(old(fs), p, bytes, w)
      ensures fs == LastOf(old(fs), Written(old(fs), p, bytes, w))
      ensures ok <==> w.Whole?
    {
      if w.OpenFails? { return false; }
      var landing := Landed(w, bytes);
      ghost var start := fs;
      ghost var states := WriteStates(start, p, landing);
      fs := Write(fs, p, []);
      trail := trail + [fs];
      assert landing[..0] == [] && states[..1] == [fs];
      for j := 0 to |landing|
        invariant fs == Write(start, p, landing[..j]) && p in fs.names
        invariant trail == old(trail) + states[..j + 1]
      {
        fs := Write(fs, p, landing[..j + 1]);
        trail := trail + [fs];
        assert fs == Write(start, p, landing[..j + 1]);
        assert states[..j + 2] == states[..j + 1] + [fs];
      }
      assert landing[..|landing|] == landing && states[..|landing| + 1] == states;
      return w.Whole?;
    }

    method RemoveFile(p: Path, fails: bool) returns (ok: bool)
      modifies this
      ensures ok <==> !fails && p in old(fs).names
      ensures fs == if ok then Remove(old(fs), p) else old(fs)
      ensures trail == old(trail) + [fs]
    {
      ok := !fails && p in fs.names;
      if ok { fs := Remove(fs, p); }
      trail := trail + [fs];
    }

    method RenameFile(source: Path, dest: Path, fails: bool) returns (ok: bool)
      modifies this
      ensures ok <==> !fails && source in old(fs).names
      ensures fs == if ok then Rename(old(fs), source, dest) else old(fs)
      ensures trail == old(trail) + [fs]
    {
      ok := !fails && source in fs.names;
      if ok { fs := Rename(fs, source, dest); }
      trail := trail + [fs];
    }

    /** Fails on an existing `dest`. */
    method LinkFile(source: Path, dest: Path, fails: bool) returns (ok: bool, exists_: bool)
      modifies this
      ensures exists_ <==> !fails && dest in old(fs).names
      ensures ok <==> !fails && dest !in old(fs).names && source in old(fs).names
      ensures fs == if ok then Link(old(fs), source, dest) else old(fs)
      ensures trail == old(trail) + [fs]
    {
      exists_ := !fails && dest in fs.names;
      ok := !fails && dest !in fs.names && source in fs.names;
      if ok { fs := Link(fs, source, dest); }
      trail := trail + [fs];
    }
  }
}
