/** The two commands in their own form: they change the project's directories in place. */
module SkillMover {
  import opened Wrappers
  import opened SkillMigration

  /** What is left after some steps, of which only the first `budget` succeed. */
  datatype Left = Left(project: Project, budget: nat, ok: bool)

  function Spend(steps: seq<Step>, p: Project, budget: nat): Left
    decreases |steps|
  {
    if steps == [] then Left(p, budget, true)
    else if budget == 0 || Apply(steps[0], p).None? then Left(p, budget, false)
    else Spend(steps[1..], Apply(steps[0], p).value, budget - 1)
  }

  /** Running out of budget is being stopped after that many steps. */
  lemma {:induction false} SpendStops(steps: seq<Step>, p: Project, budget: nat)
    ensures var l := Spend(steps, p, budget);
            && l.project == RunSteps(if budget <= |steps| then steps[..budget] else steps, p).project
            && (l.ok <==> budget >= |steps| && RunSteps(steps, p).ok)
    decreases |steps|
  {
    var first := if budget <= |steps| then steps[..budget] else steps;
    if steps != [] && budget > 0 && Apply(steps[0], p).Some? {
      SpendStops(steps[1..], Apply(steps[0], p).value, budget - 1);
      assert first[1..] == if budget - 1 <= |steps[1..]| then steps[1..][..budget - 1] else steps[1..];
    }
  }

  lemma {:induction false} SpendConcat(a: seq<Step>, b: seq<Step>, p: Project, budget: nat)
    ensures var l := Spend(a, p, budget);
            Spend(a + b, p, budget) == if l.ok then Spend(b, l.project, l.budget) else l
    decreases |a|
  {
    if a == [] {
      assert a + b == b;
    } else {
      assert (a + b)[1..] == a[1..] + b;
      if budget > 0 && Apply(a[0], p).Some? { SpendConcat(a[1..], b, Apply(a[0], p).value, budget - 1); }
    }
  }

  /** A project on disk. `budget` is the number of changes still to succeed before one fails
      for some outside reason or the process is killed. */
  class Directories {
    var project: Project
    var budget: nat

    constructor (project: Project, budget: nat)
      ensures this.project == project && this.budget == budget
    {
      this.project, this.budget := project, budget;
    }

    method Perform(step: Step) returns (ok: bool)
      modifies this
      ensures Left(project, budget, ok) == Spend([step], old(project), old(budget))
    {
      assert [step] + [] == [step];
      if budget == 0 { return false; }
      match Apply(step, project) {
        case None => ok := false;
        case Some(q) => project, budget, ok := q, budget - 1, true;
      }
    }

    method EnsureEntity() returns (refused: bool, ok: bool)
      modifies this
      ensures refused <==> old(project).entity.NotReal?
      ensures refused ==> project == old(project) && !ok
      ensures !refused ==> Left(project, budget, ok) == Spend(Settling(old(project)), old(project), old(budget))
    {
      refused, ok := false, true;
      match project.entity {
        case Real(_) =>
        case NotReal => refused, ok := true, false;
        case Missing => ok := Perform(CreateEntity);
      }
    }

    /** The moves found by the preflight, in order, until one fails. */
    method MoveAll(order: seq<Name>) returns (ok: bool)
      modifies this
      ensures Left(project, budget, ok) == Spend(Moves(order), old(project), old(budget))
    {
      ghost var all := Spend(Moves(order), project, budget);
      assert order[0..] == order;
      for i := 0 to |order|
        invariant Spend(Moves(order[i..]), project, budget) == all
      {
        assert order[i..][0] == order[i] && order[i..][1..] == order[i + 1..];
        assert [Move(order[i])] + [] == [Move(order[i])];
        ok := Perform(Move(order[i]));
        if !ok { return; }
      }
      ok := true;
    }

    /** `destination.exists()` and the kind of each entry, in the order read. */
    method PreflightAll(order: seq<Name>) returns (refusal: Option<Refusal>)
      ensures refusal == Preflight(project, order)
    {
      assert order[0..] == order;
      for i := 0 to |order|
        invariant Preflight(project, order[i..]) == Preflight(project, order)
      {
        assert order[i..][0] == order[i] && order[i..][1..] == order[i + 1..];
        var n := order[i];
        if n !in LegacyOf(project) || LegacyOf(project)[n].LegacyOther? { return Some(NonDirectory(n)); }
        if Occupied(project, n) { return Some(Collision(n)); }
      }
      refusal := None;
    }

    method Relink() returns (ok: bool)
      modifies this
      ensures Left(project, budget, ok) == Spend([RemoveFace, CreateLink], old(project), old(budget))
    {
      SpendConcat([RemoveFace], [CreateLink], project, budget);
      assert [RemoveFace] + [CreateLink] == [RemoveFace, CreateLink];
      ok := Perform(RemoveFace);
      if ok { ok := Perform(CreateLink); }
    }

    /** `run_skill_migrate_project`. */
    method MigrateProject(order: seq<Name>) returns (ok: bool)
      modifies this
      ensures var plan := MigratePlan(old(project), order);
              var left := Spend(plan.steps, old(project), old(budget));
              project == left.project && (ok <==> left.ok && plan.refusal.None?)
    {
      ghost var was, had := project, budget;
      var refused, settled := EnsureEntity();
      if refused { return false; }
      SettlingFirst(was, order, had);
      if !settled { return false; }
      match project.face {
        case Link(correct) => ok := correct;
        case OtherFile => ok := false;
        case Absent => ok := Perform(CreateLink);
        case Directory(_) =>
          var refusal := PreflightAll(order);
          PreflightSettled(was, project, order);
          if refusal.Some? { return false; }
          SpendConcat(Moves(order), [RemoveFace, CreateLink], project, budget);
          ok := MoveAll(order);
          if ok { ok := Relink(); }
      }
    }
  }

  /** The steps after the entity is there. */
  function AfterSettling(p: Project, order: seq<Name>): seq<Step> {
    match p.face
    case Absent => [CreateLink]
    case Link(_) => []
    case OtherFile => []
    case Directory(_) => if Preflight(p, order).Some? then [] else Moves(order) + [RemoveFace, CreateLink]
  }

  lemma SettlingFirst(p: Project, order: seq<Name>, budget: nat)
    requires !p.entity.NotReal?
    ensures var l := Spend(Settling(p), p, budget);
            && Spend(MigratePlan(p, order).steps, p, budget)
               == (if l.ok then Spend(AfterSettling(p, order), l.project, l.budget) else l)
            && (l.ok ==> !l.project.entity.NotReal? && l.project.face == p.face && Entries(l.project) == Entries(p))
  {
    SpendConcat(Settling(p), AfterSettling(p, order), p, budget);
    assert MigratePlan(p, order).steps == Settling(p) + AfterSettling(p, order);
    if p.entity.Missing? {
      assert [CreateEntity] + [] == [CreateEntity];
    }
  }

  lemma {:induction false} PreflightSettled(p: Project, q: Project, order: seq<Name>)
    requires q.face == p.face && Entries(q) == Entries(p)
    ensures Preflight(q, order) == Preflight(p, order)
  {
    if order != [] { PreflightSettled(p, q, order[1..]); }
  }

  /** So what the method leaves is a state the theorems speak of. */
  lemma MethodStopsWhereProven(p: Project, order: seq<Name>, budget: nat)
    ensures Spend(MigratePlan(p, order).steps, p, budget).project == Stopped(p, order, budget)
    ensures budget >= |MigratePlan(p, order).steps| ==>
              (Spend(MigratePlan(p, order).steps, p, budget).ok && MigratePlan(p, order).refusal.None?
               <==> Migrate(p, order).ok)
  {
    SpendStops(MigratePlan(p, order).steps, p, budget);
  }
}
