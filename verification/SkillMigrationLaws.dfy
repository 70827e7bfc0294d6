/** The skill migration loses nothing, overwrites nothing, and can be resumed. */
module SkillMigrationLaws {
  import opened Wrappers
  import opened SkillMigration

  // ---- Conservation

  /** The same entry, or none, on both sides. */
  predicate SameAt(a: map<Name, Entry>, b: map<Name, Entry>, n: Name) {
    (n in a <==> n in b) && (n in a ==> a[n] == b[n])
  }

  /** From `p` to `q` every legacy skill is either still where it was or moved, whole, to a free
      name; nothing else in either directory changed. */
  ghost predicate Conserved(p: Project, q: Project) {
    forall n: Name ::
      && (n in LegacyOf(q) ==> n in LegacyOf(p) && LegacyOf(q)[n] == LegacyOf(p)[n])
      && (n !in LegacyOf(p) || n in LegacyOf(q) ==> SameAt(Entries(p), Entries(q), n))
      && (n in LegacyOf(p) && n !in LegacyOf(q) ==>
            && LegacyOf(p)[n].LegacySkill? && n !in Entries(p)
            && n in Entries(q) && Entries(q)[n] == EntitySkill(LegacyOf(p)[n].skill))
  }

  lemma StepConserves(step: Step, p: Project)
    requires Apply(step, p).Some?
    ensures Conserved(p, Apply(step, p).value)
  {
  }

  lemma ConservedTransitive(p: Project, q: Project, r: Project)
    requires Conserved(p, q) && Conserved(q, r)
    ensures Conserved(p, r)
  {
    forall n: Name
      ensures n in LegacyOf(r) ==> n in LegacyOf(p) && LegacyOf(r)[n] == LegacyOf(p)[n]
      ensures n !in LegacyOf(p) || n in LegacyOf(r) ==> SameAt(Entries(p), Entries(r), n)
      ensures n in LegacyOf(p) && n !in LegacyOf(r) ==>
            && LegacyOf(p)[n].LegacySkill? && n !in Entries(p)
            && n in Entries(r) && Entries(r)[n] == EntitySkill(LegacyOf(p)[n].skill)
    {
      assert n in LegacyOf(p) || n !in LegacyOf(p);
    }
  }

  lemma {:induction false} RunConserves(steps: seq<Step>, p: Project)
    ensures Conserved(p, RunSteps(steps, p).project)
    decreases |steps|
  {
    if steps != [] && Apply(steps[0], p).Some? {
      var q := Apply(steps[0], p).value;
      StepConserves(steps[0], p);
      RunConserves(steps[1..], q);
      ConservedTransitive(p, q, RunSteps(steps[1..], q).project);
    }
  }

  /** Main result on conservation: wherever the migration stops, finished, refused, failed or
      killed, in whatever order it read the directory, no skill is lost, changed or written
      over. */
  lemma MigrationConserves(p: Project, order: seq<Name>, k: nat)
    ensures Conserved(p, Stopped(p, order, k)) && Conserved(p, Migrate(p, order).project)
  {
    var steps := MigratePlan(p, order).steps;
    RunConserves(if k <= |steps| then steps[..k] else steps, p);
    RunConserves(steps, p);
  }

  /** A refusal moves nothing: the face is untouched and the entity at most created. */
  lemma RefusalMovesNothing(p: Project, order: seq<Name>, k: nat)
    requires MigratePlan(p, order).refusal.Some?
    ensures Stopped(p, order, k) in {p, Settled(p)} && !Migrate(p, order).ok
    ensures Migrate(p, order).project == Settled(p)
  {
    SettlingSettles(p);
    var steps := MigratePlan(p, order).steps;
    assert k == 0 ==> steps[..0] == [];
    assert |steps| <= 1;
    assert steps[..|steps|] == steps;
  }

  /** What stands in the way of one entry of the face: it is no directory, or its name is taken by
      something that exists. */
  function Obstacle(p: Project, n: Name): Option<Refusal> {
    if !(p.face.Directory? && n in p.face.legacy && p.face.legacy[n].LegacySkill?) then Some(NonDirectory(n))
    else if p.entity.Real? && n in p.entity.entries && p.entity.entries[n] != Dangling then Some(Collision(n))
    else None
  }

  lemma {:induction false} PreflightFinds(p: Project, order: seq<Name>, r: Refusal)
    ensures Preflight(p, order) == Some(r) <==>
            exists i :: 0 <= i < |order| && Obstacle(p, order[i]) == Some(r)
                        && forall j :: 0 <= j < i ==> Obstacle(p, order[j]).None?
  {
    if order != [] {
      var rest := order[1..];
      if Obstacle(p, order[0]).None? {
        PreflightFinds(p, rest, r);
        if i :| 0 <= i < |order| && Obstacle(p, order[i]) == Some(r)
                && forall j :: 0 <= j < i ==> Obstacle(p, order[j]).None? {
          assert rest[i - 1] == order[i] && forall j :: 0 <= j < i - 1 ==> rest[j] == order[j + 1];
        }
        if i :| 0 <= i < |rest| && Obstacle(p, rest[i]) == Some(r)
                && forall j :: 0 <= j < i ==> Obstacle(p, rest[j]).None? {
          assert order[i + 1] == rest[i];
          assert forall j :: 0 <= j < i + 1 ==> Obstacle(p, order[j]).None? by {
            assert forall j :: 0 < j < i + 1 ==> order[j] == rest[j - 1];
          }
        }
      }
    }
  }

  /** Which refusal is reported: one for each thing that is in the way, and for a directory the
      first entry read that is no directory or whose name is taken. */
  lemma RefusedWith(p: Project, order: seq<Name>)
    ensures var r := MigratePlan(p, order).refusal;
            if p.entity.NotReal? then r == Some(EntityNotReal)
            else match p.face
              case Absent => r == None
              case Link(correct) => r == if correct then None else Some(WrongLink)
              case OtherFile => r == Some(FaceNotDirectory)
              case Directory(_) => r == Preflight(p, order)
    ensures var r := EnsurePlan(p).refusal;
            if p.entity.NotReal? then r == Some(EntityNotReal)
            else match p.face
              case Absent => r == None
              case Link(correct) => r == if correct then None else Some(WrongLink)
              case OtherFile => r == Some(FaceNotDirectory)
              case Directory(legacy) => r == if legacy == map[] then None else Some(FaceNotEmpty)
  {
  }

  function Settled(p: Project): Project {
    if p.entity.Missing? then p.(entity := Real(map[])) else p
  }

  lemma SettlingSettles(p: Project)
    ensures RunSteps(Settling(p), p) == Outcome(Settled(p), true)
  {
    if p.entity.Missing? {
      assert [CreateEntity] + [] == [CreateEntity];
      OneStep(CreateEntity, [], p);
    }
  }

  // ---- Projects that can be migrated

  /** Every legacy entry is a skill whose name is free in the entity. */
  ghost predicate Mergeable(p: Project) {
    && !p.entity.NotReal?
    && !p.face.OtherFile? && p.face != Link(false)
    && forall n :: n in LegacyOf(p) ==> LegacyOf(p)[n].LegacySkill? && n !in Entries(p)
  }

  /** The migrated project. */
  function Done(p: Project): Project {
    Project(Real(Entries(p) + Skills(LegacyOf(p))), Link(true))
  }

  function Skills(legacy: map<Name, Legacy>): map<Name, Entry> {
    map n | n in legacy && legacy[n].LegacySkill? :: EntitySkill(legacy[n].skill)
  }

  lemma StepKeepsDone(step: Step, p: Project)
    requires Mergeable(p) && Apply(step, p).Some?
    ensures Mergeable(Apply(step, p).value) && Done(Apply(step, p).value) == Done(p)
  {
    var q := Apply(step, p).value;
    assert Done(q).entity.entries == Done(p).entity.entries;
  }

  lemma {:induction false} RunKeepsDone(steps: seq<Step>, p: Project)
    requires Mergeable(p)
    ensures Mergeable(RunSteps(steps, p).project) && Done(RunSteps(steps, p).project) == Done(p)
    decreases |steps|
  {
    if steps != [] && Apply(steps[0], p).Some? {
      StepKeepsDone(steps[0], p);
      RunKeepsDone(steps[1..], Apply(steps[0], p).value);
    }
  }

  /** Something in the face the preflight refuses. */
  ghost predicate Blocks(p: Project, n: Name) {
    n in LegacyOf(p) && (LegacyOf(p)[n].LegacyOther? || Occupied(p, n))
  }

  lemma {:induction false} PreflightIff(p: Project, order: seq<Name>)
    requires forall n :: n in order ==> n in LegacyOf(p)
    ensures Preflight(p, order).Some? <==> exists n :: n in order && Blocks(p, n)
  {
    if order != [] {
      PreflightIff(p, order[1..]);
      if Blocks(p, order[0]) {
        assert order[0] in order;
      } else if n :| n in order && Blocks(p, n) {
        assert n in order[1..];
      }
    }
  }

  /** The moves of a mergeable project all succeed and empty the face. */
  lemma {:induction false} MovesEmpty(p: Project, order: seq<Name>)
    requires Mergeable(p) && p.entity.Real? && p.face.Directory? && Lists(order, LegacyOf(p))
    ensures RunSteps(Moves(order), p).ok
    ensures RunSteps(Moves(order), p).project.face == Directory(map[])
    decreases |order|
  {
    if order != [] {
      var n := order[0];
      assert n in order;
      var q := Apply(Move(n), p).value;
      StepKeepsDone(Move(n), p);
      OneStep(Move(n), Moves(order[1..]), p);
      assert Lists(order[1..], LegacyOf(q)) by {
        assert forall m :: m in order[1..] ==> m in order && m != n;
      }
      MovesEmpty(q, order[1..]);
    } else {
      assert LegacyOf(p) == map[];
    }
  }

  lemma TwoSteps(p: Project)
    requires p.face == Directory(map[])
    ensures RunSteps([RemoveFace, CreateLink], p) == Outcome(p.(face := Link(true)), true)
  {
    OneStep(CreateLink, [], p.(face := Absent));
    assert [CreateLink] + [] == [CreateLink] && [RemoveFace] + [CreateLink] == [RemoveFace, CreateLink];
    OneStep(RemoveFace, [CreateLink], p);
  }

  lemma LinkedIsDone(p: Project)
    requires p.entity.Real? && p.face == Link(true)
    ensures Done(p) == p
  {
    assert Entries(p) + Skills(LegacyOf(p)) == Entries(p);
  }

  /** A mergeable project is migrated in full, in any order. */
  lemma MergeableIsMigrated(p: Project, order: seq<Name>)
    requires Mergeable(p) && Lists(order, LegacyOf(p))
    ensures Migrate(p, order) == Outcome(Done(p), true)
  {
    var steps := MigratePlan(p, order).steps;
    var s := Settled(p);
    SettlingSettles(p);
    PreflightIff(p, order);
    RunKeepsDone(steps, p);
    RunKeepsDone(Settling(p), p);
    if p.face.Directory? {
      RunConcat(Settling(p), Moves(order) + [RemoveFace, CreateLink], p);
      assert Settling(p) + (Moves(order) + [RemoveFace, CreateLink]) == steps;
      RunConcat(Moves(order), [RemoveFace, CreateLink], s);
      MovesEmpty(s, order);
      MovesKeepReal(s, order);
      TwoSteps(RunSteps(Moves(order), s).project);
    } else if p.face.Absent? {
      RunConcat(Settling(p), [CreateLink], p);
      OneStep(CreateLink, [], s);
      assert [CreateLink] + [] == [CreateLink];
    }
    LinkedIsDone(RunSteps(steps, p).project);
  }

  lemma {:induction false} MovesKeepReal(p: Project, order: seq<Name>)
    requires p.entity.Real?
    ensures RunSteps(Moves(order), p).project.entity.Real?
    decreases |order|
  {
    if order != [] && Apply(Move(order[0]), p).Some? {
      OneStep(Move(order[0]), Moves(order[1..]), p);
      MovesKeepReal(Apply(Move(order[0]), p).value, order[1..]);
    }
  }

  /** Success is decided by the project alone. */
  lemma MigrateSucceedsIff(p: Project, order: seq<Name>)
    requires Lists(order, LegacyOf(p))
    ensures Migrate(p, order).ok <==> Mergeable(p)
  {
    if Mergeable(p) {
      MergeableIsMigrated(p, order);
    } else if Migrate(p, order).ok {
      SuccessMeansMergeable(p, order);
    }
  }

  lemma SuccessMeansMergeable(p: Project, order: seq<Name>)
    requires Lists(order, LegacyOf(p)) && Migrate(p, order).ok
    ensures Mergeable(p)
  {
    if p.face.Directory? {
      var before := Settling(p) + Moves(order) + [RemoveFace];
      assert MigratePlan(p, order).steps == before + [CreateLink];
      EndsLinked(before, p);
      MigrationConserves(p, order, 0);
    }
  }

  lemma EndsLinked(steps: seq<Step>, p: Project)
    requires RunSteps(steps + [CreateLink], p).ok
    ensures RunSteps(steps + [CreateLink], p).project.face == Link(true)
  {
    RunConcat(steps, [CreateLink], p);
    assert [CreateLink] + [] == [CreateLink];
    OneStep(CreateLink, [], RunSteps(steps, p).project);
  }

  // ---- Resuming

  /** However the migration stops and whatever the order, a rerun ends where it would have. */
  ghost predicate Resumes(p: Project) {
    forall order, k: nat, again ::
      Lists(order, LegacyOf(p)) && Lists(again, LegacyOf(Stopped(p, order, k)))
      ==> Migrate(Stopped(p, order, k), again) == Migrate(p, order)
  }

  /** The project the migration refuses outright. */
  ghost predicate Refused(p: Project) {
    || p.entity.NotReal? || p.face.OtherFile? || p.face == Link(false)
    || exists n :: Blocks(p, n)
  }

  /** The preflight passes, one skill can be moved, and another cannot because its name in the
      entity is a link to nothing. */
  ghost predicate HalfMovable(p: Project) {
    && !Refused(p)
    && (exists a :: a in LegacyOf(p) && a !in Entries(p))
    && (exists b :: b in LegacyOf(p) && b in Entries(p))
  }

  lemma RefusedIsRefused(p: Project, order: seq<Name>)
    requires Refused(p) && Lists(order, LegacyOf(p))
    ensures MigratePlan(p, order).refusal.Some? && Migrate(p, order) == Outcome(Settled(p), false)
  {
    PreflightIff(p, order);
    if n :| Blocks(p, n) { assert n in order; }
    RefusalMovesNothing(p, order, 0);
  }

  /** With every name taken by a link to nothing, the first move fails. */
  lemma StuckStays(p: Project, order: seq<Name>)
    requires !Refused(p) && p.face.Directory? && Lists(order, LegacyOf(p)) && order != [] && order[0] in Entries(p)
    ensures MigratePlan(p, order).refusal.None? && Migrate(p, order) == Outcome(p, false)
    ensures forall k: nat :: Stopped(p, order, k) == p
  {
    PreflightIff(p, order);
    var n := order[0];
    var rest := Moves(order[1..]) + [RemoveFace, CreateLink];
    var steps := MigratePlan(p, order).steps;
    assert n in order;
    assert steps == [Move(n)] + rest;
    OneStep(Move(n), rest, p);
    forall k: nat ensures Stopped(p, order, k) == p {
      if 0 < k <= |steps| { assert steps[..k][0] == Move(n); }
    }
  }

  lemma MergeableResumes(p: Project)
    requires Mergeable(p)
    ensures Resumes(p)
  {
    forall order, k: nat, again | Lists(order, LegacyOf(p)) && Lists(again, LegacyOf(Stopped(p, order, k)))
      ensures Migrate(Stopped(p, order, k), again) == Migrate(p, order)
    {
      var steps := MigratePlan(p, order).steps;
      RunKeepsDone(if k <= |steps| then steps[..k] else steps, p);
      MergeableIsMigrated(p, order);
      MergeableIsMigrated(Stopped(p, order, k), again);
    }
  }

  lemma RefusedResumes(p: Project)
    requires Refused(p)
    ensures Resumes(p)
  {
    forall order, k: nat, again | Lists(order, LegacyOf(p)) && Lists(again, LegacyOf(Stopped(p, order, k)))
      ensures Migrate(Stopped(p, order, k), again) == Migrate(p, order)
    {
      RefusedIsRefused(p, order);
      RefusalMovesNothing(p, order, k);
      if n :| Blocks(p, n) { assert Blocks(Settled(p), n); }
      assert Refused(Settled(p));
      RefusedIsRefused(Stopped(p, order, k), again);
    }
  }

  lemma StuckResumes(p: Project)
    requires !Refused(p) && !Mergeable(p) && !HalfMovable(p)
    ensures Resumes(p)
  {
    forall order, k: nat, again | Lists(order, LegacyOf(p)) && Lists(again, LegacyOf(Stopped(p, order, k)))
      ensures Migrate(Stopped(p, order, k), again) == Migrate(p, order)
    {
      NoneMovable(p);
      assert order != [] by {
        var n :| n in LegacyOf(p);
        assert n in order;
      }
      assert order[0] in order;
      StuckStays(p, order);
      assert again != [] && again[0] in again by {
        assert order[0] in again;
      }
      StuckStays(p, again);
    }
  }

  lemma NoneMovable(p: Project)
    requires !Refused(p) && !Mergeable(p) && !HalfMovable(p)
    ensures p.face.Directory? && LegacyOf(p) != map[] && forall n :: n in LegacyOf(p) ==> n in Entries(p)
  {
    assert forall n :: n in LegacyOf(p) ==> !Blocks(p, n);
  }

  /** A listing of a directory that starts with a given entry. */
  lemma {:induction false} ListAll(legacy: map<Name, Legacy>) returns (order: seq<Name>)
    ensures Lists(order, legacy)
    decreases |legacy|
  {
    if legacy == map[] {
      order := [];
    } else {
      var n :| n in legacy;
      order := ListFrom(legacy, n);
    }
  }

  lemma ListFrom(legacy: map<Name, Legacy>, n: Name) returns (order: seq<Name>)
    requires n in legacy
    ensures Lists(order, legacy) && order != [] && order[0] == n
    decreases |legacy|, 0
  {
    assert (legacy - {n}).Keys == legacy.Keys - {n};
    var rest := ListAll(legacy - {n});
    order := [n] + rest;
    assert forall m :: m in order <==> m == n || m in rest;
  }

  /** Read first, a movable skill is moved for good. */
  lemma FirstMoves(p: Project, order: seq<Name>)
    requires !Refused(p) && p.entity.Real? && p.face.Directory? && Lists(order, LegacyOf(p))
    requires order != [] && order[0] !in Entries(p)
    ensures order[0] !in LegacyOf(Migrate(p, order).project)
  {
    var n := order[0];
    PreflightIff(p, order);
    assert n in order && !Blocks(p, n);
    var rest := Moves(order[1..]) + [RemoveFace, CreateLink];
    assert MigratePlan(p, order).steps == [Move(n)] + rest;
    OneStep(Move(n), rest, p);
    RunConserves(rest, Apply(Move(n), p).value);
  }

  lemma HalfMovableDiverges(p: Project)
    requires HalfMovable(p)
    ensures !Resumes(p)
  {
    var a :| a in LegacyOf(p) && a !in Entries(p);
    var b :| b in LegacyOf(p) && b in Entries(p);
    var first := ListFrom(LegacyOf(p), a);
    var other := ListFrom(LegacyOf(p), b);
    StuckStays(p, other);
    FirstMoves(p, first);
    assert Stopped(p, other, 0) == p;
    assert Migrate(p, first) != Migrate(p, other);
  }

  /** Main result on resuming, exact: killing the migration anywhere and running it again in
      any order ends as one uninterrupted run would, unless the preflight lets through a
      dangling name next to a skill that can be moved. */
  lemma ResumesIff(p: Project)
    ensures Resumes(p) <==> !HalfMovable(p)
  {
    if HalfMovable(p) { HalfMovableDiverges(p); }
    else if Mergeable(p) { MergeableResumes(p); }
    else if Refused(p) { RefusedResumes(p); }
    else { StuckResumes(p); }
  }

  // ---- After the migration

  /** A migrated project is left alone by both commands, which then succeed. */
  lemma MigratedIsSettled(p: Project, order: seq<Name>, again: seq<Name>)
    requires Lists(order, LegacyOf(p)) && Migrate(p, order).ok
    ensures var q := Migrate(p, order).project;
            && q == Done(p) && Ensure(q) == Outcome(q, true) && Migrate(q, again) == Outcome(q, true)
  {
    MigrateSucceedsIff(p, order);
    MergeableIsMigrated(p, order);
    SettlingSettles(Done(p));
  }

  /** `ensure-project` never touches a skill, and succeeds exactly when nothing is left to
      migrate. */
  lemma EnsureIsSafe(p: Project)
    ensures Conserved(p, Ensure(p).project)
    ensures Ensure(p).ok <==> Mergeable(p) && LegacyOf(p) == map[]
    ensures Ensure(p).ok ==> Ensure(p).project == Done(p)
  {
    RunConserves(EnsurePlan(p).steps, p);
    if Mergeable(p) && LegacyOf(p) == map[] {
      assert Lists([], LegacyOf(p));
      MergeableIsMigrated(p, []);
      assert Settling(p) + Moves([]) == Settling(p);
      assert EnsurePlan(p).steps == MigratePlan(p, []).steps;
    }
  }
}
