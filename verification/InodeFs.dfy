/**
 A file system of names over inodes, as far as atomic publication needs it: two names may
 share one inode, opening an existing name for writing goes through to its inode, and a
 rename or a hard link only changes names.
 */
module InodeFs {
  import opened Octets

  /** Path segments below some root. */
  type Path = seq<string>

  datatype Fs = Fs(names: map<Path, nat>, data: map<nat, Bytes>, next: nat)

  ghost predicate Valid(fs: Fs) {
    && (forall p :: p in fs.names ==> fs.names[p] in fs.data)
    && (forall i :: i in fs.data ==> i < fs.next)
  }

  /** What is read at a path; a missing file reads as no content at all. */
  datatype Content = Missing | File(bytes: Bytes)

  function At(fs: Fs, p: Path): Content {
    if p in fs.names && fs.names[p] in fs.data then File(fs.data[fs.names[p]]) else Missing
  }

  predicate SameInode(fs: Fs, p: Path, q: Path) {
    p in fs.names && q in fs.names && fs.names[p] == fs.names[q]
  }

  /** `p` shares its inode with no other name. */
  ghost predicate Private(fs: Fs, p: Path) {
    forall q :: q != p ==> !SameInode(fs, p, q)
  }

  // ---- The system calls

  /** Open with create-and-truncate, then write: an existing inode is reused. */
  function Write(fs: Fs, p: Path, bytes: Bytes): Fs {
    if p in fs.names then fs.(data := fs.data[fs.names[p] := bytes])
    else Fs(fs.names[p := fs.next], fs.data[fs.next := bytes], fs.next + 1)
  }

  function Remove(fs: Fs, p: Path): Fs {
    fs.(names := fs.names - {p})
  }

  /** Renaming a name onto another name of the same inode does nothing. */
  function Rename(fs: Fs, source: Path, dest: Path): Fs {
    if source !in fs.names || SameInode(fs, source, dest) then fs
    else fs.(names := fs.names[dest := fs.names[source]] - {source})
  }

  function Link(fs: Fs, source: Path, dest: Path): Fs {
    if source !in fs.names then fs else fs.(names := fs.names[dest := fs.names[source]])
  }

  /** The states while `bytes` is written: truncated, then longer and longer. */
  function WriteStates(fs: Fs, p: Path, bytes: Bytes): seq<Fs> {
    seq(|bytes| + 1, j requires 0 <= j <= |bytes| => Write(fs, p, bytes[..j]))
  }

  // ---- What they change

  /** A write shows at exactly the names of the inode written. */
  lemma WriteShows(fs: Fs, p: Path, bytes: Bytes, q: Path)
    requires Valid(fs)
    ensures Valid(Write(fs, p, bytes))
    ensures At(Write(fs, p, bytes), q) == if q == p || SameInode(fs, p, q) then File(bytes) else At(fs, q)
    ensures q in Write(fs, p, bytes).names <==> q == p || q in fs.names
  {
  }

  lemma WriteKeepsSharing(fs: Fs, p: Path, bytes: Bytes, q: Path, r: Path)
    requires Valid(fs)
    ensures SameInode(Write(fs, p, bytes), q, r) <==> SameInode(fs, q, r) || (q == r == p)
  {
  }

  lemma RenameShows(fs: Fs, source: Path, dest: Path, q: Path)
    requires Valid(fs) && source in fs.names && source != dest && !SameInode(fs, source, dest)
    ensures Valid(Rename(fs, source, dest))
    ensures At(Rename(fs, source, dest), q) ==
            if q == dest then At(fs, source) else if q == source then Missing else At(fs, q)
  {
  }

  lemma LinkShows(fs: Fs, source: Path, dest: Path, q: Path)
    requires Valid(fs) && source in fs.names
    ensures Valid(Link(fs, source, dest))
    ensures At(Link(fs, source, dest), q) == if q == dest then At(fs, source) else At(fs, q)
  {
  }

  lemma RemoveShows(fs: Fs, p: Path, q: Path)
    requires Valid(fs)
    ensures Valid(Remove(fs, p))
    ensures At(Remove(fs, p), q) == if q == p then Missing else At(fs, q)
  {
  }
}
