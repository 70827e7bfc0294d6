/**
 The migration script in its own form: a home whose tree the functions of the script edit
 in place. Each method is proved to carry out the plan of its unit, and `Migrate` that every
 tree it passes through is a safe place to stop: a rerun from there ends as this run does.
 */
module HomeScript {
  import opened Wrappers
  import opened HomeTree
  import opened Json
  import M = HomeMigration

  /** The tree after each completed step. */
  ghost function Trail(steps: seq<Step>, t: Tree): seq<Tree> {
    if steps == [] then []
    else match Apply(steps[0], t)
      case None => []
      case Some(u) => [u] + Trail(steps[1..], u)
  }

  lemma {:induction false} TrailConcat(a: seq<Step>, b: seq<Step>, t: Tree)
    ensures Trail(a + b, t) ==
            if RunSteps(a, t).ok then Trail(a, t) + Trail(b, RunSteps(a, t).tree) else Trail(a, t)
  {
    if a == [] {
      assert a + b == b;
    } else {
      assert (a + b)[1..] == a[1..] + b;
      match Apply(a[0], t)
      case None =>
      case Some(u) => TrailConcat(a[1..], b, u);
    }
  }

  lemma OneStepTrail(s: Step, t: Tree)
    ensures Trail([s], t) == match Apply(s, t) case None => [] case Some(u) => [u]
  {
    assert [s][1..] == [];
    if Apply(s, t).Some? { assert Trail([], Apply(s, t).value) == []; }
  }

  /** Taking the first of the steps that are left. */
  lemma TakeStep(s: Step, rest: seq<Step>, t: Tree)
    ensures Apply(s, t).None? ==> RunSteps([s] + rest, t) == Outcome(t, false) && Trail([s] + rest, t) == []
    ensures Apply(s, t).Some? ==>
              var u := Apply(s, t).value;
              RunSteps([s] + rest, t) == RunSteps(rest, u) && Trail([s] + rest, t) == [u] + Trail(rest, u)
  {
    assert ([s] + rest)[1..] == rest;
  }

  lemma Regroup(x: seq<Tree>, y: seq<Tree>, z: seq<Tree>)
    ensures x + (y + z) == x + y + z && x + [] == x
  {
  }

  /** The same with the trail so far. */
  lemma TakeNext(s: Step, rest: seq<Step>, t: Tree, trail: seq<Tree>)
    ensures Apply(s, t).None? ==> trail + Trail([s] + rest, t) == trail
    ensures Apply(s, t).Some? ==>
              var u := Apply(s, t).value;
              trail + Trail([s] + rest, t) == trail + [u] + Trail(rest, u)
  {
    TakeStep(s, rest, t);
    if Apply(s, t).Some? {
      Regroup(trail, [Apply(s, t).value], Trail(rest, Apply(s, t).value));
    }
  }

  /** One plan after another. */
  lemma ChainTrail(a: seq<Step>, b: seq<Step>, t: Tree, trail: seq<Tree>)
    ensures var r := RunSteps(a, t);
            trail + Trail(a + b, t) == if r.ok then trail + Trail(a, t) + Trail(b, r.tree) else trail + Trail(a, t)
  {
    TrailConcat(a, b, t);
    Regroup(trail, Trail(a, t), Trail(b, RunSteps(a, t).tree));
  }

  /** What is left of making directories, one level down. */
  lemma NextDir(p: Path, i: nat, t: Tree)
    requires i < |p|
    ensures var top := p[..i + 1];
            if top !in t then
              && Mkdirs(p, i, t) == [Mkdir(top)] + Mkdirs(p, i + 1, t)
              && Apply(Mkdir(top), t) == Some(t[top := Dir])
              && Mkdirs(p, i + 1, t[top := Dir]) == Mkdirs(p, i + 1, t)
            else if t[top].File? then Mkdirs(p, i, t) == [Raise] + []
            else Mkdirs(p, i, t) == Mkdirs(p, i + 1, t)
  {
    if p[..i + 1] !in t { MkdirsLocal(p, i + 1, t, t[p[..i + 1] := Dir]); }
  }

  /** What is left of writing tenants, one tenant on. */
  lemma NextTenant(c: Codec, tenants: seq<Json>, i: nat, last: seq<Step>)
    requires i < |tenants|
    ensures var t := tenants[i];
            var id, now, rest := Get(t, "id"), M.TenantWrites(c, tenants[i..]), M.TenantWrites(c, tenants[i + 1..]);
            if !t.JObj? then now + last == [Raise] + last
            else if id.Some? && !Falsy(id.value) then
              now + last == [Write(M.TenantPath(c, id.value), c.dumpTenant(t))] + (rest + last)
            else now == rest
  {
    assert tenants[i..][0] == tenants[i] && tenants[i..][1..] == tenants[i + 1..];
  }

  lemma {:induction false} OnTrail(steps: seq<Step>, t: Tree, m: Tree) returns (k: nat)
    requires m in Trail(steps, t)
    ensures k <= |steps| && RunSteps(steps[..k], t) == Outcome(m, true)
  {
    var u := Apply(steps[0], t).value;
    if m == u {
      k := 1;
      assert steps[..1] == [steps[0]];
      OneStep(steps[0], t);
    } else {
      var k' := OnTrail(steps[1..], u, m);
      k := k' + 1;
      assert steps[..k][1..] == steps[1..][..k'];
    }
  }

  /** A rerun from anywhere on the trail of a unit ends as the run itself. */
  lemma TrailIsSafe(c: Codec, t: Tree, i: nat, m: Tree)
    requires M.Lawful(c) && i < |M.SCRIPT| && M.Before(c, t, i).ok
    requires m in Trail(M.Plan(c, M.SCRIPT[i], M.Before(c, t, i).tree), M.Before(c, t, i).tree)
    ensures M.Main(c, m) == M.Main(c, t)
  {
    var k := OnTrail(M.Plan(c, M.SCRIPT[i], M.Before(c, t, i).tree), M.Before(c, t, i).tree, m);
    M.RerunIsSafe(c, t, M.Crash(i, k, Clean));
  }

  /** The loop of `relabel_session_owners`: edits the owners in place and counts them. */
  method RelabelItems(items: array<Json>) returns (n: nat)
    modifies items
    ensures items[..] == M.RelabelAll(old(items[..])) && n == M.WebOwned(old(items[..]))
  {
    n := 0;
    ghost var was := items[..];
    for i := 0 to items.Length
      invariant items[..i] == M.RelabelAll(was[..i]) && items[i..] == was[i..]
      invariant n + M.WebOwned(was[i..]) == M.WebOwned(was)
    {
      assert was[i..][0] == items[i] == was[i] && was[i..][1..] == was[i + 1..];
      if M.IsWebOwned(items[i]) {
        items[i] := M.Relabelled(items[i]);
        n := n + 1;
      }
      assert items[..i + 1] == items[..i] + [M.Relabelled(was[i])];
    }
    assert items[..] == items[..items.Length] && was[..items.Length] == was;
  }

  /** The document with the visited session objects put back where they were read. */
  function WithItems(doc: Json, items: seq<Json>): Json
    requires M.SessionItems(doc).Some? && |items| == |M.SessionItems(doc).value|
  {
    match Get(doc, "sessions")
    case Some(JObj(fields)) =>
      JObj(Replace(doc.fields, "sessions",
                   JObj(seq(|fields|, i requires 0 <= i < |fields| => (fields[i].0, items[i])))))
    case Some(JArr(_)) => JObj(Replace(doc.fields, "sessions", JArr(items)))
    case _ => doc
  }

  lemma WithRelabelled(doc: Json)
    requires M.SessionItems(doc).Some?
    ensures WithItems(doc, M.RelabelAll(M.SessionItems(doc).value)) == M.RelabelDoc(doc)
  {
    match Get(doc, "sessions")
    case Some(JObj(fields)) =>
      var items := M.RelabelAll(M.SessionItems(doc).value);
      assert seq(|fields|, i requires 0 <= i < |fields| => (fields[i].0, items[i]))
          == seq(|fields|, i requires 0 <= i < |fields| => (fields[i].0, M.Relabelled(fields[i].1)));
    case Some(JArr(items)) =>
      assert Falsy(JArr(items)) ==> M.RelabelAll(items) == items;
    case _ =>
  }

  class Home {
    var tree: Tree
    /** Every tree there has been since the object was made, oldest first. */
    ghost var trail: seq<Tree>

    constructor (tree: Tree)
      ensures this.tree == tree && trail == []
    {
      this.tree := tree;
      trail := [];
    }

    /** `steps` ran on the tree `was`: that is where the home is, and what it went through. */
    ghost predicate Ran(steps: seq<Step>, was: Tree, wasTrail: seq<Tree>, ok: bool)
      reads this
    {
      RunSteps(steps, was) == Outcome(tree, ok) && trail == wasTrail + Trail(steps, was)
    }

    /** Of `steps`, to be run on the tree `was`, the steps `rest` are left to do here. */
    ghost predicate Left(rest: seq<Step>, steps: seq<Step>, was: Tree, wasTrail: seq<Tree>)
      reads this
    {
      RunSteps(steps, was) == RunSteps(rest, tree) && wasTrail + Trail(steps, was) == trail + Trail(rest, tree)
    }

    method Perform(s: Step) returns (ok: bool)
      modifies this
      ensures ok == Apply(s, old(tree)).Some?
      ensures tree == if ok then Apply(s, old(tree)).value else old(tree)
      ensures trail == if ok then old(trail) + [tree] else old(trail)
      ensures Ran([s], old(tree), old(trail), ok)
    {
      OneStep(s, tree);
      OneStepTrail(s, tree);
      var r := Apply(s, tree);
      ok := r.Some?;
      if ok {
        tree := r.value;
        trail := trail + [tree];
      }
    }

    /** The first of the steps that are left. */
    method PerformNext(
      s: Step, ghost rest: seq<Step>, ghost steps: seq<Step>, ghost was: Tree, ghost wasTrail: seq<Tree>)
      returns (ok: bool)
      requires Left([s] + rest, steps, was, wasTrail)
      modifies this
      ensures ok == Apply(s, old(tree)).Some?
      ensures tree == if ok then Apply(s, old(tree)).value else old(tree)
      ensures if ok then Left(rest, steps, was, wasTrail) else Ran(steps, was, wasTrail, false)
    {
      TakeStep(s, rest, tree);
      TakeNext(s, rest, tree, trail);
      ok := Perform(s);
    }

    method MakeDirs(p: Path) returns (ok: bool)
      modifies this
      ensures Ran(Mkdirs(p, 0, old(tree)), old(tree), old(trail), ok)
    {
      ghost var all, was, wasTrail := Mkdirs(p, 0, tree), tree, trail;
      ok := true;
      for i := 0 to |p|
        invariant ok && Left(Mkdirs(p, i, tree), all, was, wasTrail)
      {
        NextDir(p, i, tree);
        if p[..i + 1] !in tree {
          ok := PerformNext(Mkdir(p[..i + 1]), Mkdirs(p, i + 1, tree), all, was, wasTrail);
        } else if tree[p[..i + 1]].File? {
          ok := PerformNext(Raise, [], all, was, wasTrail);
          return;
        }
      }
    }

    method Move(c: Codec, src: Path, dst: Path) returns (ok: bool)
      requires dst != []
      modifies this
      ensures Ran(M.Plan(c, M.Move(src, dst), old(tree)), old(tree), old(trail), ok)
    {
      if src !in tree || dst in tree { return true; }
      ghost var made := Mkdirs(M.Parent(dst), 0, tree);
      RunStepsConcat(made, [Rename(src, dst)], tree);
      ChainTrail(made, [Rename(src, dst)], tree, trail);
      ok := MakeDirs(M.Parent(dst));
      if ok {
        ok := Perform(Rename(src, dst));
      }
    }

    method SplitTenants(c: Codec) returns (ok: bool)
      modifies this
      ensures Ran(M.Plan(c, M.SplitTenants, old(tree)), old(tree), old(trail), ok)
    {
      if M.TENANTS !in tree || tree[M.TENANTS].Dir? { return true; }
      var doc := c.parse(tree[M.TENANTS].text);
      if doc.None? { return true; }
      var tenants := M.TenantList(doc.value);
      if tenants.None? {
        ok := Perform(Raise);
        return;
      }
      ghost var made := Mkdirs(M.USERS, 0, tree);
      ghost var last := M.TenantWrites(c, tenants.value) + [Unlink(M.TENANTS)];
      RunStepsConcat(made, last, tree);
      ChainTrail(made, last, tree, trail);
      ok := MakeDirs(M.USERS);
      if ok {
        ok := WriteTenants(c, tenants.value);
      }
    }

    method WriteTenants(c: Codec, tenants: seq<Json>) returns (ok: bool)
      modifies this
      ensures Ran(M.TenantWrites(c, tenants) + [Unlink(M.TENANTS)], old(tree), old(trail), ok)
    {
      ghost var last := [Unlink(M.TENANTS)];
      ghost var all, was, wasTrail := M.TenantWrites(c, tenants) + last, tree, trail;
      assert tenants[0..] == tenants;
      for i := 0 to |tenants|
        invariant Left(M.TenantWrites(c, tenants[i..]) + last, all, was, wasTrail)
      {
        NextTenant(c, tenants, i, last);
        var t := tenants[i];
        var id := Get(t, "id");
        if !t.JObj? {
          ok := PerformNext(Raise, last, all, was, wasTrail);
          return;
        }
        if id.Some? && !Falsy(id.value) {
          var s := Write(M.TenantPath(c, id.value), c.dumpTenant(t));
          ok := PerformNext(s, M.TenantWrites(c, tenants[i + 1..]) + last, all, was, wasTrail);
          if !ok { return; }
        }
      }
      assert [] + last == last + [];
      ok := PerformNext(Unlink(M.TENANTS), [], all, was, wasTrail);
    }

    method RelabelSessionOwners(c: Codec) returns (ok: bool)
      modifies this
      ensures Ran(M.Plan(c, M.RelabelOwners, old(tree)), old(tree), old(trail), ok)
    {
      if M.GATEWAY !in tree || tree[M.GATEWAY].Dir? { return true; }
      var doc := c.parse(tree[M.GATEWAY].text);
      if doc.None? { return true; }
      var list := M.SessionItems(doc.value);
      if list.None? {
        ok := Perform(Raise);
        return;
      }
      var items := new Json[|list.value|](i requires 0 <= i < |list.value| => list.value[i]);
      assert items[..] == list.value;
      var n := RelabelItems(items);
      ok := true;
      if n > 0 {
        WithRelabelled(doc.value);
        ok := Perform(Write(M.GATEWAY, c.dumps(WithItems(doc.value, items[..]))));
      }
    }

    method DeleteLeftover(c: Codec, name: string) returns (ok: bool)
      modifies this
      ensures Ran(M.Plan(c, M.Delete(name), old(tree)), old(tree), old(trail), ok)
    {
      if [name] !in tree { return true; }
      if tree[[name]].Dir? {
        ok := Perform(Rmtree([name]));
      } else {
        ok := Perform(Unlink([name]));
      }
    }

    method Migrate(c: Codec) returns (ok: bool)
      requires M.Lawful(c)
      modifies this
      ensures Outcome(tree, ok) == M.Main(c, old(tree))
      ensures old(trail) <= trail
      ensures forall m :: m in trail[|old(trail)|..] ==> M.Main(c, m) == M.Main(c, old(tree))
    {
      ghost var t, r := tree, trail;
      for i := 0 to |M.MOVES|
        invariant M.Before(c, t, i) == Outcome(tree, true)
        invariant SafeSince(c, t, r)
      {
        ghost var b, r' := tree, trail;
        M.SourceAndTarget(i);
        ok := Move(c, M.MOVES[i].src, M.MOVES[i].dst);
        StageRan(c, t, i, b, r, r', ok);
        if !ok { return; }
      }
      ghost var b, r' := tree, trail;
      ok := SplitTenants(c);
      StageRan(c, t, |M.MOVES|, b, r, r', ok);
      if !ok { return; }
      b, r' := tree, trail;
      ok := RelabelSessionOwners(c);
      StageRan(c, t, |M.MOVES| + 1, b, r, r', ok);
      if !ok { return; }
      for i := 0 to |M.DELETES|
        invariant ok && M.Before(c, t, |M.MOVES| + 2 + i) == Outcome(tree, true)
        invariant SafeSince(c, t, r)
      {
        ghost var b, r' := tree, trail;
        ok := DeleteLeftover(c, M.DELETES[i].name);
        StageRan(c, t, |M.MOVES| + 2 + i, b, r, r', ok);
        if !ok { return; }
      }
      assert M.SCRIPT[..|M.SCRIPT|] == M.SCRIPT;
    }

    /** Every tree since the trail was `r` is one from which a rerun ends as the run on `t`. */
    ghost predicate SafeSince(c: Codec, t: Tree, r: seq<Tree>)
      reads this
    {
      r <= trail && forall m :: m in trail[|r|..] ==> M.Main(c, m) == M.Main(c, t)
    }

    lemma StageRan(c: Codec, t: Tree, i: nat, b: Tree, r: seq<Tree>, r': seq<Tree>, ok: bool)
      requires M.Lawful(c) && i < |M.SCRIPT| && M.Before(c, t, i) == Outcome(b, true)
      requires r <= r' && forall m :: m in r'[|r|..] ==> M.Main(c, m) == M.Main(c, t)
      requires Ran(M.Plan(c, M.SCRIPT[i], b), b, r', ok)
      ensures M.Before(c, t, i + 1) == Outcome(tree, ok)
      ensures !ok ==> M.Main(c, t) == Outcome(tree, ok)
      ensures SafeSince(c, t, r)
    {
      M.BeforeNext(c, t, i);
      M.RestStep(c, M.SCRIPT, i, b);
      forall m | m in trail[|r|..] ensures M.Main(c, m) == M.Main(c, t) {
        if m !in r'[|r|..] {
          TrailIsSafe(c, t, i, m);
        }
      }
    }
  }
}
