/**
 A file tree below one home directory, and the mutating operations a migration script
 performs on it. Every operation is one step; `Tear` says what a crash in the middle of
 a step that is not atomic leaves behind.
 */
module HomeTree {
  import opened Wrappers

  type Path = seq<string>

  datatype Node = Dir | File(text: string)

  type Tree = map<Path, Node>

  datatype Step =
    | Mkdir(path: Path)
    | Rename(src: Path, dst: Path)
    | Write(path: Path, text: string)
    | Unlink(path: Path)
    | Rmtree(path: Path)
    | Raise

  datatype Outcome = Outcome(tree: Tree, ok: bool)

  /** How far an interrupted step got. A write truncates first and may stop after any
      proper prefix of its text; a recursive removal may stop after any set of entries
      below the top, which goes last. */
  datatype Tear = Clean | Written(length: nat) | Removed(gone: set<Path>)

  /** The tree after `src` (with all it holds) has been renamed to `dst`. */
  function Moved(t: Tree, src: Path, dst: Path): Tree {
    var kept := set q | q in t && !(src <= q);
    var arrived := set q | q in t && src <= q :: dst + q[|src|..];
    map q | q in kept + arrived ::
      if dst <= q && src + q[|dst|..] in t then t[src + q[|dst|..]] else if q in t then t[q] else Dir
  }

  /** A rename takes every entry below `src` along, leaves none behind, and touches nothing
      outside the two. */
  lemma MovedEntries(t: Tree, src: Path, dst: Path, q: Path)
    requires src != [] && dst != [] && src[0] != dst[0]
    ensures src <= q ==> q !in Moved(t, src, dst)
    ensures src <= q && q in t ==>
              var q' := dst + q[|src|..]; q' in Moved(t, src, dst) && Moved(t, src, dst)[q'] == t[q]
    ensures !(src <= q) && !(dst <= q) ==>
              (q in t <==> q in Moved(t, src, dst)) && (q in t ==> Moved(t, src, dst)[q] == t[q])
  {
    if src <= q {
      assert q[0] == src[0];
      assert src + q[|src|..] == q;
      var q' := dst + q[|src|..];
      assert q'[|dst|..] == q[|src|..];
    }
  }

  function Without(t: Tree, top: Path): Tree {
    map q | q in t && !(top <= q) :: t[q]
  }

  /** One completed step, or `None` when it raises and changes nothing. */
  function Apply(s: Step, t: Tree): Option<Tree> {
    match s
    case Mkdir(p) => Some(t[p := Dir])
    case Rename(src, dst) => Some(Moved(t, src, dst))
    case Write(p, text) => if p in t && t[p].Dir? then None else Some(t[p := File(text)])
    case Unlink(p) => Some(t - {p})
    case Rmtree(p) => Some(Without(t, p))
    case Raise => None
  }

  /** The tree a crash in the middle of step `s` leaves. */
  function Torn(s: Step, tear: Tear, t: Tree): Tree {
    match (s, tear)
    case (Write(p, text), Written(n)) =>
      if n < |text| && !(p in t && t[p].Dir?) then t[p := File(text[..n])] else t
    case (Rmtree(p), Removed(gone)) => map q | q in t && !(q in gone && p < q) :: t[q]
    case _ => t
  }

  function RunSteps(steps: seq<Step>, t: Tree): Outcome {
    if steps == [] then Outcome(t, true)
    else match Apply(steps[0], t)
      case None => Outcome(t, false)
      case Some(t') => RunSteps(steps[1..], t')
  }

  lemma {:induction false} RunStepsConcat(a: seq<Step>, b: seq<Step>, t: Tree)
    ensures RunSteps(a, t).ok ==> RunSteps(a + b, t) == RunSteps(b, RunSteps(a, t).tree)
    ensures !RunSteps(a, t).ok ==> RunSteps(a + b, t) == RunSteps(a, t)
  {
    if a == [] {
      assert a + b == b;
    } else {
      assert (a + b)[1..] == a[1..] + b;
      match Apply(a[0], t)
      case None =>
      case Some(t') => RunStepsConcat(a[1..], b, t');
    }
  }

  lemma OneStep(s: Step, t: Tree)
    ensures RunSteps([s], t) == match Apply(s, t) case None => Outcome(t, false) case Some(u) => Outcome(u, true)
  {
    assert [s][1..] == [];
  }

  /** `parents=True, exist_ok=True`: the directories missing on the way to `p[..]` from
      depth `i` on, and an error where a file stands in the way. */
  function Mkdirs(p: Path, i: nat, t: Tree): seq<Step>
    requires i <= |p|
    decreases |p| - i
  {
    if i == |p| then []
    else if p[..i + 1] !in t then [Mkdir(p[..i + 1])] + Mkdirs(p, i + 1, t)
    else if t[p[..i + 1]].File? then [Raise]
    else Mkdirs(p, i + 1, t)
  }

  lemma FirstStep(steps: seq<Step>, k: nat, t: Tree)
    requires 0 < k <= |steps| && RunSteps(steps[..k], t).ok
    ensures Apply(steps[0], t).Some?
    ensures RunSteps(steps[..k], t) == RunSteps(steps[1..][..k - 1], Apply(steps[0], t).value)
  {
    assert steps[..k][0] == steps[0] && steps[..k][1..] == steps[1..][..k - 1];
  }

  /** Once the first missing directory is made, what is left to make is the rest. */
  lemma {:induction false} MkdirsAdvance(p: Path, i: nat, t: Tree)
    requires i <= |p| && Mkdirs(p, i, t) != []
    ensures Mkdirs(p, i, t)[0] == Raise || Mkdirs(p, i, t)[0].Mkdir?
    ensures Mkdirs(p, i, t)[0].Mkdir? ==>
              && i < |Mkdirs(p, i, t)[0].path| && Mkdirs(p, i, t)[0].path <= p
              && Mkdirs(p, i, t)[0].path !in t
              && Mkdirs(p, i, t[Mkdirs(p, i, t)[0].path := Dir]) == Mkdirs(p, i, t)[1..]
    decreases |p| - i
  {
    var top := p[..i + 1];
    if top !in t {
      MkdirsLocal(p, i + 1, t, t[top := Dir]);
    } else if t[top].Dir? {
      MkdirsAdvance(p, i + 1, t);
    }
  }

  /** Directory creation interrupted after `k` steps is resumed by exactly the steps that
      were left. */
  lemma {:induction false} MkdirsResume(p: Path, t: Tree, k: nat)
    requires k <= |Mkdirs(p, 0, t)|
    requires RunSteps(Mkdirs(p, 0, t)[..k], t).ok
    ensures Mkdirs(p, 0, RunSteps(Mkdirs(p, 0, t)[..k], t).tree) == Mkdirs(p, 0, t)[k..]
    decreases k
  {
    if k > 0 {
      FirstStep(Mkdirs(p, 0, t), k, t);
      MkdirsAdvance(p, 0, t);
      MkdirsResume(p, Apply(Mkdirs(p, 0, t)[0], t).value, k - 1);
    }
  }

  /** Making directories on the way to `p` touches nothing that is not on the way to `p`. */
  lemma {:induction false} MkdirsKeep(p: Path, t: Tree, k: nat, q: Path)
    requires k <= |Mkdirs(p, 0, t)| && RunSteps(Mkdirs(p, 0, t)[..k], t).ok
    requires !(q <= p)
    ensures q in t <==> q in RunSteps(Mkdirs(p, 0, t)[..k], t).tree
    ensures q in t ==> RunSteps(Mkdirs(p, 0, t)[..k], t).tree[q] == t[q]
    decreases k
  {
    if k > 0 {
      FirstStep(Mkdirs(p, 0, t), k, t);
      MkdirsAdvance(p, 0, t);
      MkdirsKeep(p, Apply(Mkdirs(p, 0, t)[0], t).value, k - 1, q);
    }
  }

  /** Making directories leaves every entry that is there as it is. */
  lemma {:induction false} MkdirsKeepExisting(p: Path, t: Tree, k: nat, q: Path)
    requires k <= |Mkdirs(p, 0, t)| && RunSteps(Mkdirs(p, 0, t)[..k], t).ok && q in t
    ensures q in RunSteps(Mkdirs(p, 0, t)[..k], t).tree && RunSteps(Mkdirs(p, 0, t)[..k], t).tree[q] == t[q]
    decreases k
  {
    if k > 0 {
      FirstStep(Mkdirs(p, 0, t), k, t);
      MkdirsAdvance(p, 0, t);
      MkdirsKeepExisting(p, Apply(Mkdirs(p, 0, t)[0], t).value, k - 1, q);
    }
  }

  lemma {:induction false} MkdirsLocal(p: Path, i: nat, t: Tree, t': Tree)
    requires i <= |p|
    requires forall q :: |q| > i && q <= p ==> (q in t <==> q in t') && (q in t ==> t[q] == t'[q])
    ensures Mkdirs(p, i, t) == Mkdirs(p, i, t')
    decreases |p| - i
  {
    if i < |p| {
      assert p[..i + 1] <= p;
      MkdirsLocal(p, i + 1, t, t');
    }
  }

  /** After all of `p` was made, nothing is left to make. */
  lemma {:induction false} MkdirsDone(p: Path, i: nat, t: Tree)
    requires i <= |p|
    requires forall j :: i < j <= |p| ==> p[..j] in t && t[p[..j]].Dir?
    ensures Mkdirs(p, i, t) == []
    decreases |p| - i
  {
    if i < |p| { MkdirsDone(p, i + 1, t); }
  }

  // ---- What a step can touch, by top-level entry of the home.

  predicate Rooted(s: Step) {
    match s
    case Mkdir(p) => p != []
    case Rename(src, dst) => src != [] && dst != []
    case Write(p, _) => p != []
    case Unlink(p) => p != []
    case Rmtree(p) => p != []
    case Raise => true
  }

  predicate Within(s: Step, makes: set<string>, drops: set<string>) {
    && Rooted(s)
    && match s
       case Mkdir(p) => p[0] in makes
       case Rename(src, dst) => src[0] in drops && dst[0] in makes
       case Write(p, _) => p[0] in makes
       case Unlink(p) => p[0] in drops
       case Rmtree(p) => p[0] in drops
       case Raise => true
  }

  /** From `t` to `u`, entries were made or rewritten only below `makes` and removed only
      below `drops`. */
  ghost predicate Frame(makes: set<string>, drops: set<string>, t: Tree, u: Tree) {
    forall q: Path :: q != [] ==>
      (q in u && q[0] !in makes ==> q in t && u[q] == t[q]) && (q in t && q[0] !in drops ==> q in u)
  }

  lemma StepFrame(s: Step, makes: set<string>, drops: set<string>, t: Tree, tear: Tear)
    requires Within(s, makes, drops)
    ensures Apply(s, t).Some? ==> Frame(makes, drops, t, Apply(s, t).value)
    ensures Frame(makes, drops, t, Torn(s, tear, t))
  {
  }

  lemma {:induction false} StepsFrame(steps: seq<Step>, makes: set<string>, drops: set<string>, t: Tree)
    requires forall s :: s in steps ==> Within(s, makes, drops)
    ensures Frame(makes, drops, t, RunSteps(steps, t).tree)
  {
    if steps != [] {
      StepFrame(steps[0], makes, drops, t, Clean);
      match Apply(steps[0], t)
      case None =>
      case Some(t') => StepsFrame(steps[1..], makes, drops, t');
    }
  }

  // ---- Replaying a batch of writes.

  /** What completed writes change: their own targets, which hold files afterwards and held
      no directory before. */
  lemma {:induction false} WritesChange(writes: seq<Step>, t: Tree, q: Path)
    requires forall i :: 0 <= i < |writes| ==> writes[i].Write?
    requires RunSteps(writes, t).ok
    ensures var u := RunSteps(writes, t).tree;
            (q in t ==> q in u)
            && (q in u ==> (q in t && u[q] == t[q])
                           || (u[q].File? && (q in t ==> t[q].File?)
                               && exists i :: 0 <= i < |writes| && writes[i].path == q))
  {
    if writes != [] {
      var p := writes[0].path;
      var t' := t[p := File(writes[0].text)];
      WritesChange(writes[1..], t', q);
      if i :| 0 <= i < |writes[1..]| && writes[1..][i].path == q {
        assert writes[i + 1].path == q;
      }
    }
  }

  /** At `q` the trees agree, or it is a target of the first `k` writes and no directory. */
  ghost predicate Touched(writes: seq<Step>, k: nat, t: Tree, m: Tree, q: Path)
    requires k <= |writes| && forall i :: 0 <= i < k ==> writes[i].Write?
  {
    || ((q in t <==> q in m) && (q in t ==> t[q] == m[q]))
    || ((q in t ==> t[q].File?) && (q in m ==> m[q].File?) && exists i :: 0 <= i < k && writes[i].path == q)
  }

  /** Rerunning a batch of writes from a tree in which its first `k` targets were already
      touched ends exactly as running the batch from the tree where they were not. */
  lemma {:induction false} ReplayWrites(writes: seq<Step>, k: nat, t: Tree, m: Tree)
    requires k <= |writes| && forall i :: 0 <= i < k ==> writes[i].Write?
    requires RunSteps(writes[..k], t).ok
    requires forall q :: Touched(writes, k, t, m, q)
    ensures RunSteps(writes, m) == RunSteps(writes, t)
  {
    if k == 0 {
      forall q ensures (q in t <==> q in m) && (q in t ==> t[q] == m[q]) {
        assert Touched(writes, k, t, m, q);
      }
      assert m == t;
    } else {
      FirstStep(writes, k, t);
      var p := writes[0].path;
      assert Touched(writes, k, t, m, p);
      var t', m' := t[p := File(writes[0].text)], m[p := File(writes[0].text)];
      var rest, k' := writes[1..], k - 1;
      forall q ensures Touched(rest, k', t', m', q) {
        assert Touched(writes, k, t, m, q);
        if i :| 0 <= i < k && writes[i].path == q {
          if i > 0 { assert rest[i - 1].path == q; }
        }
      }
      ReplayWrites(writes[1..], k - 1, t', m');
    }
  }

  // ---- Resuming a stopped sequence of steps

  /** What is left when `steps` stop after the first `n`, with step `n` torn. */
  function Halfway(steps: seq<Step>, t: Tree, n: nat, tear: Tear): Tree
    requires n <= |steps|
  {
    var m := RunSteps(steps[..n], t).tree;
    if n < |steps| then Torn(steps[n], tear, m) else m
  }

  /** A stop in `a + b` is a stop in `a`, or in `b` after all of `a`. */
  lemma HalfwayConcat(a: seq<Step>, b: seq<Step>, t: Tree, n: nat, tear: Tear)
    requires n < |a| + |b| && RunSteps((a + b)[..n], t).ok
    ensures n < |a| ==> RunSteps(a[..n], t).ok && Halfway(a + b, t, n, tear) == Halfway(a, t, n, tear)
    ensures n >= |a| ==>
              var u := RunSteps(a, t).tree;
              && RunSteps(a, t).ok
              && RunSteps(b[..n - |a|], u).ok
              && Halfway(a + b, t, n, tear) == Halfway(b, u, n - |a|, tear)
  {
    if n < |a| {
      assert (a + b)[..n] == a[..n] && (a + b)[n] == a[n];
    } else {
      var rest := b[..n - |a|];
      assert (a + b)[..n] == a + rest && (a + b)[n] == b[n - |a|];
      RunStepsConcat(a, rest, t);
    }
  }

  lemma HalfwayBeforeUnlink(writes: seq<Step>, src: Path, t: Tree, n: nat, tear: Tear)
    requires n <= |writes|
    ensures (writes + [Unlink(src)])[..n] == writes[..n]
    ensures Halfway(writes + [Unlink(src)], t, n, tear) == Halfway(writes, t, n, tear)
  {
    assert (writes + [Unlink(src)])[..n] == writes[..n];
  }

  /** Stopping while directories are made, then making what is missing and going on with
      `last`, is the same as never having stopped. */
  lemma ResumeMkdirs(p: Path, last: seq<Step>, t: Tree, n: nat, tear: Tear)
    requires n <= |Mkdirs(p, 0, t)| && RunSteps(Mkdirs(p, 0, t)[..n], t).ok
    ensures var m := RunSteps(Mkdirs(p, 0, t)[..n], t).tree;
            && RunSteps(Mkdirs(p, 0, m) + last, m) == RunSteps(Mkdirs(p, 0, t) + last, t)
            && Halfway(Mkdirs(p, 0, t), t, n, tear) == m
  {
    var made := Mkdirs(p, 0, t);
    MkdirsResume(p, t, n);
    assert made + last == made[..n] + (made[n..] + last);
    RunStepsConcat(made[..n], made[n..] + last, t);
    if n < |made| {
      MkdirsAdvance(p, 0, RunSteps(made[..n], t).tree);
      assert made[n] == made[n..][0];
    }
  }

  predicate WritesThenMaybeRaise(steps: seq<Step>) {
    forall i :: 0 <= i < |steps| ==> steps[i].Write? || (steps[i] == Raise && i == |steps| - 1)
  }

  /** A stop inside a batch of writes has touched a prefix of its targets. */
  lemma StopTouches(writes: seq<Step>, t: Tree, n: nat, tear: Tear) returns (k: nat)
    requires n <= |writes| && RunSteps(writes[..n], t).ok
    requires WritesThenMaybeRaise(writes)
    ensures k <= |writes| && (forall i :: 0 <= i < k ==> writes[i].Write?) && RunSteps(writes[..k], t).ok
    ensures forall q :: Touched(writes, k, t, Halfway(writes, t, n, tear), q)
  {
    var m := RunSteps(writes[..n], t).tree;
    var m' := Halfway(writes, t, n, tear);
    CompletedAreWrites(writes, n, t);
    k := n;
    if m' != m {
      assert writes[..n + 1] == writes[..n] + [writes[n]];
      OneStep(writes[n], m);
      RunStepsConcat(writes[..n], [writes[n]], t);
      k := n + 1;
    }
    forall q ensures Touched(writes, k, t, m', q) {
      WritesChange(writes[..n], t, q);
      if i :| 0 <= i < n && writes[..n][i].path == q {
        assert writes[i].path == q;
      }
      if m' != m && q == writes[n].path {
        assert writes[k - 1].path == q;
      }
    }
  }

  /** Stopping inside a batch of writes whose source goes last: the rerun writes every target
      again and ends the same. */
  lemma ResumeWrites(writes: seq<Step>, src: Path, t: Tree, n: nat, tear: Tear)
    requires n <= |writes| && RunSteps(writes[..n], t).ok
    requires WritesThenMaybeRaise(writes)
    ensures var m' := Halfway(writes, t, n, tear);
            && RunSteps(writes + [Unlink(src)], m') == RunSteps(writes + [Unlink(src)], t)
            && (forall q :: (forall i :: 0 <= i < |writes| && writes[i].Write? ==> writes[i].path != q) ==>
                  (q in m' <==> q in t) && (q in t ==> m'[q] == t[q]))
  {
    var m' := Halfway(writes, t, n, tear);
    var k := StopTouches(writes, t, n, tear);
    var all := writes + [Unlink(src)];
    assert all[..k] == writes[..k];
    forall q ensures Touched(all, k, t, m', q) {
      assert Touched(writes, k, t, m', q);
      if i :| 0 <= i < k && writes[i].path == q {
        assert all[i].path == q;
      }
    }
    ReplayWrites(all, k, t, m');
    forall q | forall i :: 0 <= i < |writes| && writes[i].Write? ==> writes[i].path != q
      ensures (q in m' <==> q in t) && (q in t ==> m'[q] == t[q])
    {
      assert Touched(writes, k, t, m', q);
    }
  }

  lemma {:induction false} CompletedAreWrites(writes: seq<Step>, n: nat, t: Tree)
    requires n <= |writes| && RunSteps(writes[..n], t).ok
    requires WritesThenMaybeRaise(writes)
    ensures forall i :: 0 <= i < n ==> writes[i].Write?
  {
    if n > 0 {
      FirstStep(writes, n, t);
      CompletedAreWrites(writes[1..], n - 1, Apply(writes[0], t).value);
      forall i | 0 <= i < n ensures writes[i].Write? {
        if i > 0 { assert writes[i] == writes[1..][i - 1]; }
      }
    }
  }

  /** The same when the directory `p` of the targets has to be made first. */
  lemma ResumeBatch(p: Path, writes: seq<Step>, src: Path, t: Tree, n: nat, tear: Tear)
    requires WritesThenMaybeRaise(writes) && !(src <= p) && !(p <= src)
    requires forall i :: 0 <= i < |writes| && writes[i].Write? ==> p < writes[i].path
    requires n < |Mkdirs(p, 0, t) + (writes + [Unlink(src)])|
    requires RunSteps((Mkdirs(p, 0, t) + (writes + [Unlink(src)]))[..n], t).ok
    ensures var plan := Mkdirs(p, 0, t) + (writes + [Unlink(src)]);
            var m := Halfway(plan, t, n, tear);
            && RunSteps(Mkdirs(p, 0, m) + (writes + [Unlink(src)]), m) == RunSteps(plan, t)
            && (src in m <==> src in t) && (src in t ==> m[src] == t[src])
  {
    var made, last := Mkdirs(p, 0, t), writes + [Unlink(src)];
    HalfwayConcat(made, last, t, n, tear);
    if n < |made| {
      ResumeMkdirs(p, last, t, n, tear);
      MkdirsKeep(p, t, n, src);
    } else {
      var b, n' := RunSteps(made, t).tree, n - |made|;
      HalfwayBeforeUnlink(writes, src, b, n', tear);
      ResumeAfterMkdirs(p, writes, src, t, n', tear);
    }
  }

  lemma ResumeAfterMkdirs(p: Path, writes: seq<Step>, src: Path, t: Tree, n: nat, tear: Tear)
    requires WritesThenMaybeRaise(writes) && !(src <= p) && !(p <= src)
    requires forall i :: 0 <= i < |writes| && writes[i].Write? ==> p < writes[i].path
    requires RunSteps(Mkdirs(p, 0, t), t).ok && n <= |writes|
    requires RunSteps(writes[..n], RunSteps(Mkdirs(p, 0, t), t).tree).ok
    ensures var m := Halfway(writes, RunSteps(Mkdirs(p, 0, t), t).tree, n, tear);
            && RunSteps(Mkdirs(p, 0, m) + (writes + [Unlink(src)]), m)
               == RunSteps(Mkdirs(p, 0, t) + (writes + [Unlink(src)]), t)
            && (src in m <==> src in t) && (src in t ==> m[src] == t[src])
  {
    var made, last := Mkdirs(p, 0, t), writes + [Unlink(src)];
    var b := RunSteps(made, t).tree;
    var m := Halfway(writes, b, n, tear);
    assert made[..|made|] == made && made[|made|..] == [];
    MkdirsResume(p, t, |made|);
    MkdirsKeep(p, t, |made|, src);
    ResumeWrites(writes, src, b, n, tear);
    MkdirsLocal(p, 0, b, m);
    assert [] + last == last;
    RunStepsConcat(made, last, t);
  }
}
