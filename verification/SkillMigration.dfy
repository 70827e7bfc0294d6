/**
 Moving a project's legacy skills to the neutral directory
 (crates/ccteam-cli/src/commands.rs): `.claude/skills`, the face, becomes a link to
 `.agents/skills`, the entity, once every skill in it has been moved there.
 */
module SkillMigration {
  import opened Wrappers

  type Name = string

  /** What a skill directory holds, by relative path. */
  type Skill = map<seq<string>, string>

  /** An entry of the face: only directories count as skills. */
  datatype Legacy = LegacySkill(skill: Skill) | LegacyOther

  /** An entry of the entity: a directory, something else that exists, or a link to nothing,
      which `Path::exists` does not see. */
  datatype Entry = EntitySkill(skill: Skill) | EntityOther | Dangling

  datatype Entity = Missing | Real(entries: map<Name, Entry>) | NotReal

  datatype Face = Absent | Link(correct: bool) | Directory(legacy: map<Name, Legacy>) | OtherFile

  datatype Project = Project(entity: Entity, face: Face)

  datatype Refusal = EntityNotReal | WrongLink | FaceNotDirectory | NonDirectory(name: Name) | Collision(name: Name)
                   | FaceNotEmpty

  function Entries(p: Project): map<Name, Entry> {
    if p.entity.Real? then p.entity.entries else map[]
  }

  function LegacyOf(p: Project): map<Name, Legacy> {
    if p.face.Directory? then p.face.legacy else map[]
  }

  // ---- Steps

  /** The atomic steps that change the project. */
  datatype Step = CreateEntity | Move(name: Name) | RemoveFace | CreateLink

  function Apply(step: Step, p: Project): Option<Project> {
    match step
    case CreateEntity => if p.entity.Missing? then Some(p.(entity := Real(map[]))) else None
    case Move(n) =>
      if p.entity.Real? && p.face.Directory? && n in p.face.legacy && p.face.legacy[n].LegacySkill?
         && n !in p.entity.entries
      then Some(Project(Real(p.entity.entries[n := EntitySkill(p.face.legacy[n].skill)]),
                        Directory(p.face.legacy - {n})))
      else None
    case RemoveFace => if p.face == Directory(map[]) then Some(p.(face := Absent)) else None
    case CreateLink => if p.face.Absent? then Some(p.(face := Link(true))) else None
  }

  datatype Outcome = Outcome(project: Project, ok: bool)

  function RunSteps(steps: seq<Step>, p: Project): Outcome
    decreases |steps|
  {
    if steps == [] then Outcome(p, true)
    else match Apply(steps[0], p)
      case None => Outcome(p, false)
      case Some(q) => RunSteps(steps[1..], q)
  }

  // ---- The two commands

  datatype Plan = Plan(steps: seq<Step>, refusal: Option<Refusal>)

  function Settling(p: Project): seq<Step> {
    if p.entity.Missing? then [CreateEntity] else []
  }

  /** `destination.exists()`. */
  predicate Occupied(p: Project, n: Name) {
    n in Entries(p) && !Entries(p)[n].Dangling?
  }

  /** The first entry, in the order the directory is read, that stops the migration. */
  function Preflight(p: Project, order: seq<Name>): Option<Refusal> {
    if order == [] then None
    else
      var n := order[0];
      if n !in LegacyOf(p) || LegacyOf(p)[n].LegacyOther? then Some(NonDirectory(n))
      else if Occupied(p, n) then Some(Collision(n))
      else Preflight(p, order[1..])
  }

  function Moves(order: seq<Name>): seq<Step> {
    if order == [] then [] else [Move(order[0])] + Moves(order[1..])
  }

  function MigratePlan(p: Project, order: seq<Name>): Plan {
    if p.entity.NotReal? then Plan([], Some(EntityNotReal))
    else match p.face
      case Absent => Plan(Settling(p) + [CreateLink], None)
      case Link(correct) => Plan(Settling(p), if correct then None else Some(WrongLink))
      case OtherFile => Plan(Settling(p), Some(FaceNotDirectory))
      case Directory(_) =>
        match Preflight(p, order)
        case Some(r) => Plan(Settling(p), Some(r))
        case None => Plan(Settling(p) + Moves(order) + [RemoveFace, CreateLink], None)
  }

  function EnsurePlan(p: Project): Plan {
    if p.entity.NotReal? then Plan([], Some(EntityNotReal))
    else match p.face
      case Absent => Plan(Settling(p) + [CreateLink], None)
      case Link(correct) => Plan(Settling(p), if correct then None else Some(WrongLink))
      case OtherFile => Plan(Settling(p), Some(FaceNotDirectory))
      case Directory(legacy) =>
        if legacy != map[] then Plan(Settling(p), Some(FaceNotEmpty))
        else Plan(Settling(p) + [RemoveFace, CreateLink], None)
  }

  function Carry(plan: Plan, p: Project): Outcome {
    var o := RunSteps(plan.steps, p);
    Outcome(o.project, o.ok && plan.refusal.None?)
  }

  /** The migration of a project whose face is read in the given order. */
  function Migrate(p: Project, order: seq<Name>): Outcome {
    Carry(MigratePlan(p, order), p)
  }

  function Ensure(p: Project): Outcome {
    Carry(EnsurePlan(p), p)
  }

  /** Where the migration leaves the project when it is killed, or a step of it fails for some
      outside reason, after `k` steps. */
  function Stopped(p: Project, order: seq<Name>, k: nat): Project {
    var steps := MigratePlan(p, order).steps;
    RunSteps(if k <= |steps| then steps[..k] else steps, p).project
  }

  /** The order in which a directory with these entries may be read. */
  ghost predicate Lists(order: seq<Name>, legacy: map<Name, Legacy>) {
    && (forall n :: n in order <==> n in legacy)
    && (forall i, j :: 0 <= i < j < |order| ==> order[i] != order[j])
  }

  // ---- Running steps

  lemma {:induction false} RunConcat(a: seq<Step>, b: seq<Step>, p: Project)
    ensures RunSteps(a + b, p) == if RunSteps(a, p).ok then RunSteps(b, RunSteps(a, p).project) else RunSteps(a, p)
    decreases |a|
  {
    if a == [] {
      assert a + b == b;
    } else {
      assert (a + b)[1..] == a[1..] + b;
      if Apply(a[0], p).Some? { RunConcat(a[1..], b, Apply(a[0], p).value); }
    }
  }

  lemma OneStep(s: Step, rest: seq<Step>, p: Project)
    ensures RunSteps([s] + rest, p)
            == match Apply(s, p) case None => Outcome(p, false) case Some(q) => RunSteps(rest, q)
  {
    assert ([s] + rest)[1..] == rest;
  }
}
