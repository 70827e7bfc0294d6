/**
 scripts/migrate_ccteam_home.py: the one-time relocation of an old home directory, as an
 ordered list of units, each planned from the tree it finds and carried out step by step.

 The script promises that running it again is safe. The main result says, for every tree
 and every point at which a run may be cut short, exactly when that holds: always, unless
 the cut tears the rewrite of `state/im/gateway-state.json`.
 */
module HomeMigration {
  import opened Wrappers
  import opened HomeTree
  import opened Json

  datatype Work =
    | Move(src: Path, dst: Path)
    | SplitTenants
    | RelabelOwners
    | Delete(name: string)

  const MOVES: seq<Work> := [
    Move(["web-token"], ["secrets", "web-token"]),
    Move(["im", "credentials.json"], ["secrets", "im-credentials.json"]),
    Move(["hub-cache"], ["cache", "hub"]),
    Move(["imd"], ["state", "im"]),
    Move(["progress"], ["state", "progress"]),
    Move(["harness"], ["state", "harness"]),
    Move(["pty"], ["state", "pty"])]

  const DELETES: seq<Work> := [
    Delete("phases"), Delete("templates"), Delete("inbox"), Delete("control"),
    Delete("teams-progress.jsonl"), Delete("config.yaml.bak"), Delete("im")]

  const SCRIPT: seq<Work> := MOVES + [SplitTenants, RelabelOwners] + DELETES

  const TENANTS: Path := ["tenants.json"]
  const USERS: Path := ["secrets", "users"]
  const GATEWAY: Path := ["state", "im", "gateway-state.json"]

  // ---- split_tenants

  function TenantPath(c: Codec, id: Json): Path {
    USERS + [(if id.JStr? then id.s else c.show(id)) + ".json"]
  }

  /** The loop over the tenants: one write per entry that has an id, an error at the first
      entry that is not an object. */
  function TenantWrites(c: Codec, tenants: seq<Json>): (steps: seq<Step>)
    ensures forall i :: 0 <= i < |steps| ==>
              (steps[i].Write? && USERS <= steps[i].path && |steps[i].path| == 3)
              || (steps[i] == Raise && i == |steps| - 1)
  {
    if tenants == [] then []
    else if !tenants[0].JObj? then [Raise]
    else match Get(tenants[0], "id")
      case None => TenantWrites(c, tenants[1..])
      case Some(id) =>
        if Falsy(id) then TenantWrites(c, tenants[1..])
        else [Write(TenantPath(c, id), c.dumpTenant(tenants[0]))] + TenantWrites(c, tenants[1..])
  }

  /** `doc.get("tenants", [])`, or nothing when the document is not an object. */
  function TenantList(doc: Json): Option<seq<Json>> {
    if !doc.JObj? then Some([])
    else match Get(doc, "tenants")
      case None => Some([])
      case Some(v) => Elements(v)
  }

  function SplitPlan(c: Codec, t: Tree): seq<Step> {
    if TENANTS !in t || t[TENANTS].Dir? then []
    else match c.parse(t[TENANTS].text)
      case None => []
      case Some(doc) =>
        match TenantList(doc)
        case None => [Raise]
        case Some(tenants) => Mkdirs(USERS, 0, t) + (TenantWrites(c, tenants) + [Unlink(TENANTS)])
  }

  // ---- relabel_session_owners

  predicate IsWebOwned(session: Json) {
    Get(session, "owner").Some? && Get(Get(session, "owner").value, "channel") == Some(JStr("web"))
  }

  function Relabelled(session: Json): Json {
    if !IsWebOwned(session) then session
    else
      var owner := Get(session, "owner").value;
      JObj(Replace(session.fields, "owner", JObj(Replace(owner.fields, "channel", JStr("user")))))
  }

  function RelabelAll(items: seq<Json>): (r: seq<Json>)
    ensures |r| == |items| && forall i :: 0 <= i < |r| ==> r[i] == Relabelled(items[i])
  {
    seq(|items|, i requires 0 <= i < |items| => Relabelled(items[i]))
  }

  function WebOwned(items: seq<Json>): nat {
    if items == [] then 0 else WebOwned(items[1..]) + if IsWebOwned(items[0]) then 1 else 0
  }

  /** The session objects the loop visits: the values of an object, the elements of any
      other container, nothing for an absent or falsy entry, an error otherwise. */
  function SessionItems(doc: Json): Option<seq<Json>> {
    if !doc.JObj? then None
    else match Get(doc, "sessions")
      case None => Some([])
      case Some(JObj(fields)) => Some(seq(|fields|, i requires 0 <= i < |fields| => fields[i].1))
      case Some(v) => if Falsy(v) then Some([]) else Elements(v)
  }

  /** The document after the loop has edited the owners in place. */
  function RelabelDoc(doc: Json): Json
    requires doc.JObj?
  {
    match Get(doc, "sessions")
    case Some(JObj(fields)) =>
      JObj(Replace(doc.fields, "sessions",
                   JObj(seq(|fields|, i requires 0 <= i < |fields| => (fields[i].0, Relabelled(fields[i].1))))))
    case Some(JArr(items)) => JObj(Replace(doc.fields, "sessions", JArr(RelabelAll(items))))
    case _ => doc
  }

  function RelabelPlan(c: Codec, t: Tree): seq<Step> {
    if GATEWAY !in t || t[GATEWAY].Dir? then []
    else match c.parse(t[GATEWAY].text)
      case None => []
      case Some(doc) =>
        match SessionItems(doc)
        case None => [Raise]
        case Some(items) => if WebOwned(items) == 0 then [] else [Write(GATEWAY, c.dumps(RelabelDoc(doc)))]
  }

  // ---- main

  function Parent(p: Path): Path
    requires p != []
  {
    p[..|p| - 1]
  }

  function Plan(c: Codec, w: Work, t: Tree): seq<Step> {
    match w
    case Move(src, dst) =>
      if src !in t || dst in t || dst == [] then [] else Mkdirs(Parent(dst), 0, t) + [Rename(src, dst)]
    case SplitTenants => SplitPlan(c, t)
    case RelabelOwners => RelabelPlan(c, t)
    case Delete(name) =>
      if [name] !in t then [] else if t[[name]].Dir? then [Rmtree([name])] else [Unlink([name])]
  }

  function RunWork(c: Codec, w: Work, t: Tree): Outcome {
    RunSteps(Plan(c, w, t), t)
  }

  /** Units in order, stopping at the first that raises. */
  function RunAll(c: Codec, ws: seq<Work>, t: Tree): Outcome {
    if ws == [] then Outcome(t, true)
    else
      var r := RunWork(c, ws[0], t);
      if r.ok then RunAll(c, ws[1..], r.tree) else r
  }

  function Main(c: Codec, t: Tree): Outcome {
    RunAll(c, SCRIPT, t)
  }

  /** What the JSON library guarantees here: a relabelled document reads back as itself, and
      no proper prefix of its text is a document. */
  ghost predicate Lawful(c: Codec) {
    forall text :: c.parse(text).Some? && c.parse(text).value.JObj? ==>
      var d := RelabelDoc(c.parse(text).value);
      c.parse(c.dumps(d)) == Some(d) && forall k :: 0 <= k < |c.dumps(d)| ==> c.parse(c.dumps(d)[..k]) == None
  }

  // ---- Crashes

  /** The run stops inside step `step` of unit `work` (between steps when `tear` is `Clean`). */
  datatype Crash = Crash(work: nat, step: nat, tear: Tear)

  /** A run of unit `w` gets through its first `n` steps. */
  predicate Passes(c: Codec, w: Work, t: Tree, n: nat) {
    n <= |Plan(c, w, t)| && RunSteps(Plan(c, w, t)[..n], t).ok
  }

  /** What is left when unit `w` stops after `n` steps, with step `n` torn. */
  function Left(c: Codec, w: Work, t: Tree, n: nat, tear: Tear): Tree
    requires Passes(c, w, t, n)
  {
    Halfway(Plan(c, w, t), t, n, tear)
  }

  function Before(c: Codec, t: Tree, n: nat): Outcome
    requires n <= |SCRIPT|
  {
    RunAll(c, SCRIPT[..n], t)
  }

  /** The run really gets as far as the crash point. */
  predicate Reached(c: Codec, t: Tree, k: Crash) {
    k.work < |SCRIPT| && Before(c, t, k.work).ok && Passes(c, SCRIPT[k.work], Before(c, t, k.work).tree, k.step)
  }

  function CrashTree(c: Codec, t: Tree, k: Crash): Tree
    requires Reached(c, t, k)
  {
    Left(c, SCRIPT[k.work], Before(c, t, k.work).tree, k.step, k.tear)
  }

  /** The crash leaves the rewrite of the gateway state half done. */
  predicate TearsRewrite(c: Codec, w: Work, t: Tree, n: nat, tear: Tear)
    requires Passes(c, w, t, n)
  {
    && w == RelabelOwners
    && n < |Plan(c, w, t)|
    && Plan(c, w, t)[n].Write?
    && tear.Written?
    && tear.length < |Plan(c, w, t)[n].text|
  }

  // ---- What the units touch

  function Makes(w: Work): set<string> {
    match w
    case Move(_, dst) => if dst == [] then {} else {dst[0]}
    case SplitTenants => {"secrets"}
    case RelabelOwners => {"state"}
    case Delete(_) => {}
  }

  function Drops(w: Work): set<string> {
    match w
    case Move(src, _) => if src == [] then {} else {src[0]}
    case SplitTenants => {"tenants.json"}
    case RelabelOwners => {}
    case Delete(name) => {name}
  }

  lemma {:induction false} MkdirsWithin(p: Path, i: nat, t: Tree, makes: set<string>, drops: set<string>)
    requires i <= |p| && (p != [] ==> p[0] in makes)
    ensures forall s :: s in Mkdirs(p, i, t) ==> Within(s, makes, drops)
    decreases |p| - i
  {
    if i < |p| {
      MkdirsWithin(p, i + 1, t, makes, drops);
    }
  }

  lemma PlanWithin(c: Codec, i: nat, t: Tree)
    requires i < |SCRIPT|
    ensures forall s :: s in Plan(c, SCRIPT[i], t) ==> Within(s, Makes(SCRIPT[i]), Drops(SCRIPT[i]))
  {
    var w := SCRIPT[i];
    match w
    case Move(src, dst) =>
      assert Parent(dst)[0] == dst[0];
      MkdirsWithin(Parent(dst), 0, t, Makes(w), Drops(w));
    case SplitTenants => MkdirsWithin(USERS, 0, t, Makes(w), Drops(w));
    case RelabelOwners =>
    case Delete(_) =>
  }

  lemma LeftFrame(c: Codec, i: nat, t: Tree, n: nat, tear: Tear)
    requires i < |SCRIPT| && Passes(c, SCRIPT[i], t, n)
    ensures Frame(Makes(SCRIPT[i]), Drops(SCRIPT[i]), t, Left(c, SCRIPT[i], t, n, tear))
  {
    var makes, drops := Makes(SCRIPT[i]), Drops(SCRIPT[i]);
    var steps := Plan(c, SCRIPT[i], t);
    PlanWithin(c, i, t);
    StepsFrame(steps[..n], makes, drops, t);
    if n < |steps| {
      var m := RunSteps(steps[..n], t).tree;
      StepFrame(steps[n], makes, drops, m, tear);
    }
  }

  /** Nothing is left for the unit to do. */
  predicate Settled(c: Codec, w: Work, t: Tree) {
    Plan(c, w, t) == []
  }

  /** What the names in the script say about any two units in order. */
  lemma NamesApart(j: nat, i: nat)
    requires j < i < |SCRIPT|
    ensures match SCRIPT[j]
            case Move(src, dst) =>
              src != [] && dst != [] && src[0] !in Makes(SCRIPT[i]) && dst[0] !in Drops(SCRIPT[i])
            case SplitTenants => "tenants.json" !in Makes(SCRIPT[i]) + Drops(SCRIPT[i])
            case RelabelOwners => "state" !in Makes(SCRIPT[i]) + Drops(SCRIPT[i])
            case Delete(name) => name !in Makes(SCRIPT[i])
  {
  }

  /** A unit that has nothing left to do keeps having nothing to do while a later one works. */
  lemma LaterKeepsSettled(c: Codec, j: nat, i: nat, t: Tree, u: Tree)
    requires j < i < |SCRIPT|
    requires Frame(Makes(SCRIPT[i]), Drops(SCRIPT[i]), t, u)
    requires Settled(c, SCRIPT[j], t)
    ensures Settled(c, SCRIPT[j], u)
  {
    var w, makes, drops := SCRIPT[j], Makes(SCRIPT[i]), Drops(SCRIPT[i]);
    NamesApart(j, i);
    match w
    case Move(src, dst) =>
      assert src !in t || dst in t;
    case SplitTenants =>
      assert TENANTS in t <==> TENANTS in u;
    case RelabelOwners =>
      assert GATEWAY in t <==> GATEWAY in u;
    case Delete(name) =>
      assert [name] !in u;
  }

  // ---- Relabelling settles

  lemma RelabelledIsUser(session: Json)
    ensures !IsWebOwned(Relabelled(session))
  {
    if IsWebOwned(session) {
      var owner := Get(session, "owner").value;
      var owner' := JObj(Replace(owner.fields, "channel", JStr("user")));
      LookupReplaced(owner.fields, "channel", JStr("user"));
      LookupReplaced(session.fields, "owner", owner');
    }
  }

  lemma {:induction false} NoneWebOwned(items: seq<Json>)
    requires forall i :: 0 <= i < |items| ==> !IsWebOwned(items[i])
    ensures WebOwned(items) == 0
  {
    if items != [] { NoneWebOwned(items[1..]); }
  }

  lemma RelabelSettles(doc: Json)
    requires SessionItems(doc).Some? && WebOwned(SessionItems(doc).value) > 0
    ensures SessionItems(RelabelDoc(doc)) == Some(RelabelAll(SessionItems(doc).value))
    ensures WebOwned(RelabelAll(SessionItems(doc).value)) == 0
  {
    var items := SessionItems(doc).value;
    var sessions := Get(doc, "sessions").value;
    var items' := RelabelAll(items);
    forall i | 0 <= i < |items| ensures !IsWebOwned(items'[i]) { RelabelledIsUser(items[i]); }
    NoneWebOwned(items');
    if sessions.JObj? {
      var fields := sessions.fields;
      var edited := JObj(seq(|fields|, i requires 0 <= i < |fields| => (fields[i].0, Relabelled(fields[i].1))));
      LookupReplaced(doc.fields, "sessions", edited);
      assert SessionItems(RelabelDoc(doc)).value == items';
    } else if sessions.JArr? {
      LookupReplaced(doc.fields, "sessions", JArr(items'));
      assert Falsy(JArr(items')) ==> items' == [];
    } else {
      NoneWebOwned(items);
    }
  }

  // ---- A finished unit is settled

  lemma FinishedMove(c: Codec, src: Path, dst: Path, t: Tree)
    requires src != [] && dst != [] && src[0] != dst[0]
    requires RunWork(c, Move(src, dst), t).ok
    ensures Settled(c, Move(src, dst), RunWork(c, Move(src, dst), t).tree)
  {
    if !Settled(c, Move(src, dst), t) {
      RunStepsConcat(Mkdirs(Parent(dst), 0, t), [Rename(src, dst)], t);
      MovedEntries(RunSteps(Mkdirs(Parent(dst), 0, t), t).tree, src, dst, src);
    }
  }

  lemma FinishedSplit(c: Codec, t: Tree)
    requires RunWork(c, SplitTenants, t).ok
    ensures Settled(c, SplitTenants, RunWork(c, SplitTenants, t).tree)
  {
    if !Settled(c, SplitTenants, t) {
      var writes := TenantWrites(c, TenantList(c.parse(t[TENANTS].text).value).value);
      var made := Mkdirs(USERS, 0, t);
      RunStepsConcat(made, writes + [Unlink(TENANTS)], t);
      RunStepsConcat(writes, [Unlink(TENANTS)], RunSteps(made, t).tree);
    }
  }

  lemma FinishedRelabel(c: Codec, t: Tree)
    requires Lawful(c) && RunWork(c, RelabelOwners, t).ok
    ensures Settled(c, RelabelOwners, RunWork(c, RelabelOwners, t).tree)
  {
    if !Settled(c, RelabelOwners, t) {
      var doc := c.parse(t[GATEWAY].text).value;
      var text := c.dumps(RelabelDoc(doc));
      RewriteRan(GATEWAY, text, t);
      RelabelSettles(doc);
      assert c.parse(text) == Some(RelabelDoc(doc));
    }
  }

  lemma FinishedDelete(c: Codec, name: string, t: Tree)
    ensures Settled(c, Delete(name), RunWork(c, Delete(name), t).tree)
  {
    var plan := Plan(c, Delete(name), t);
    if plan != [] {
      OneStep(plan[0], t);
      assert [name] !in Apply(plan[0], t).value;
    }
  }

  lemma RewriteRan(p: Path, text: string, t: Tree)
    requires p in t && t[p].File?
    ensures RunSteps([Write(p, text)], t) == Outcome(t[p := File(text)], true)
  {
    OneStep(Write(p, text), t);
  }

  lemma FinishedIsSettled(c: Codec, i: nat, t: Tree)
    requires Lawful(c) && i < |SCRIPT|
    requires RunWork(c, SCRIPT[i], t).ok
    ensures Settled(c, SCRIPT[i], RunWork(c, SCRIPT[i], t).tree)
  {
    match SCRIPT[i]
    case Move(src, dst) =>
      SourceAndTarget(i);
      FinishedMove(c, src, dst, t);
    case SplitTenants => FinishedSplit(c, t);
    case RelabelOwners => FinishedRelabel(c, t);
    case Delete(name) => FinishedDelete(c, name, t);
  }

  lemma SourceAndTarget(i: nat)
    requires i < |SCRIPT| && SCRIPT[i].Move?
    ensures SCRIPT[i].src != [] && SCRIPT[i].dst != [] && SCRIPT[i].src[0] != SCRIPT[i].dst[0]
  {
  }

  // ---- Resuming a unit

  lemma ResumeMove(c: Codec, src: Path, dst: Path, t: Tree, n: nat, tear: Tear)
    requires src != [] && dst != [] && src[0] != dst[0]
    requires Passes(c, Move(src, dst), t, n) && n < |Plan(c, Move(src, dst), t)|
    ensures RunWork(c, Move(src, dst), Left(c, Move(src, dst), t, n, tear)) == RunWork(c, Move(src, dst), t)
  {
    var made, last := Mkdirs(Parent(dst), 0, t), [Rename(src, dst)];
    assert (made + last)[..n] == made[..n];
    ResumeMkdirs(Parent(dst), last, t, n, tear);
    MkdirsKeep(Parent(dst), t, n, src);
    MkdirsKeep(Parent(dst), t, n, dst);
  }

  lemma ResumeDelete(c: Codec, name: string, t: Tree, n: nat, tear: Tear)
    requires Passes(c, Delete(name), t, n) && n < |Plan(c, Delete(name), t)|
    ensures RunWork(c, Delete(name), Left(c, Delete(name), t, n, tear)) == RunWork(c, Delete(name), t)
  {
    var m := Left(c, Delete(name), t, n, tear);
    assert Without(m, [name]) == Without(t, [name]);
  }

  lemma ResumeSplit(c: Codec, t: Tree, n: nat, tear: Tear)
    requires Passes(c, SplitTenants, t, n) && n < |Plan(c, SplitTenants, t)|
    ensures RunWork(c, SplitTenants, Left(c, SplitTenants, t, n, tear)) == RunWork(c, SplitTenants, t)
  {
    var tenants := TenantList(c.parse(t[TENANTS].text).value);
    if tenants.Some? {
      assert !(TENANTS <= USERS) && !(USERS <= TENANTS) by { assert TENANTS[0] != USERS[0]; }
      ResumeBatch(USERS, TenantWrites(c, tenants.value), TENANTS, t, n, tear);
    }
  }

  lemma ResumeRelabel(c: Codec, t: Tree, n: nat, tear: Tear)
    requires Passes(c, RelabelOwners, t, n) && n < |Plan(c, RelabelOwners, t)|
    requires !TearsRewrite(c, RelabelOwners, t, n, tear)
    ensures RunWork(c, RelabelOwners, Left(c, RelabelOwners, t, n, tear)) == RunWork(c, RelabelOwners, t)
  {
    assert Plan(c, RelabelOwners, t)[..n] == [];
  }

  /** Running a unit again from wherever it stopped ends as if it had not stopped. */
  lemma ResumeWork(c: Codec, i: nat, t: Tree, n: nat, tear: Tear)
    requires Lawful(c) && i < |SCRIPT| && Passes(c, SCRIPT[i], t, n)
    requires !TearsRewrite(c, SCRIPT[i], t, n, tear)
    ensures RunWork(c, SCRIPT[i], Left(c, SCRIPT[i], t, n, tear)) == RunWork(c, SCRIPT[i], t)
  {
    var w := SCRIPT[i];
    if n == |Plan(c, w, t)| {
      assert Plan(c, w, t)[..n] == Plan(c, w, t);
      FinishedIsSettled(c, i, t);
    } else {
      match w
      case Move(src, dst) =>
        SourceAndTarget(i);
        ResumeMove(c, src, dst, t, n, tear);
      case SplitTenants => ResumeSplit(c, t, n, tear);
      case RelabelOwners => ResumeRelabel(c, t, n, tear);
      case Delete(name) => ResumeDelete(c, name, t, n, tear);
    }
  }

  // ---- Whole runs

  lemma {:induction false} RunAllConcat(c: Codec, a: seq<Work>, b: seq<Work>, t: Tree)
    ensures RunAll(c, a + b, t) == if RunAll(c, a, t).ok then RunAll(c, b, RunAll(c, a, t).tree) else RunAll(c, a, t)
  {
    if a == [] {
      assert a + b == b;
    } else {
      assert (a + b)[1..] == a[1..] + b;
      RunAllConcat(c, a[1..], b, RunWork(c, a[0], t).tree);
    }
  }

  lemma RunAllSplit(c: Codec, ws: seq<Work>, t: Tree, n: nat)
    requires n < |ws|
    ensures var r := RunAll(c, ws[..n], t);
            && RunAll(c, ws[..n + 1], t) == (if r.ok then RunWork(c, ws[n], r.tree) else r)
            && (r.ok ==> RunAll(c, ws, t) == RunAll(c, ws[n..], r.tree))
  {
    assert ws[..n + 1] == ws[..n] + [ws[n]];
    RunAllConcat(c, ws[..n], [ws[n]], t);
    assert ws == ws[..n] + ws[n..];
    RunAllConcat(c, ws[..n], ws[n..], t);
  }

  lemma BeforeNext(c: Codec, t: Tree, n: nat)
    requires n < |SCRIPT|
    ensures Before(c, t, n + 1) ==
            if Before(c, t, n).ok then RunWork(c, SCRIPT[n], Before(c, t, n).tree) else Before(c, t, n)
    ensures Before(c, t, n).ok ==> Main(c, t) == Rest(c, n, Before(c, t, n).tree)
  {
    RunAllSplit(c, SCRIPT, t, n);
  }

  /** Running from unit `n` on. */
  function Rest(c: Codec, n: nat, t: Tree): Outcome
    requires n <= |SCRIPT|
  {
    RunAll(c, SCRIPT[n..], t)
  }

  lemma RestStep(c: Codec, ws: seq<Work>, n: nat, t: Tree)
    requires n < |ws|
    ensures var r := RunWork(c, ws[n], t);
            RunAll(c, ws[n..], t) == if r.ok then RunAll(c, ws[n + 1..], r.tree) else r
  {
    assert ws[n..][1..] == ws[n + 1..];
  }

  /** Everything that ran before unit `n` has nothing left to do. */
  lemma {:induction false} PastIsSettled(c: Codec, t: Tree, n: nat, j: nat)
    requires Lawful(c) && j < n <= |SCRIPT| && Before(c, t, n).ok
    ensures Settled(c, SCRIPT[j], Before(c, t, n).tree)
  {
    var i := n - 1;
    BeforeNext(c, t, i);
    var b := Before(c, t, i).tree;
    if j == i {
      FinishedIsSettled(c, i, b);
    } else {
      PastIsSettled(c, t, i, j);
      var all := Plan(c, SCRIPT[i], b);
      assert all[..|all|] == all;
      LeftFrame(c, i, b, |all|, Clean);
      LaterKeepsSettled(c, j, i, b, RunWork(c, SCRIPT[i], b).tree);
    }
  }

  lemma {:induction false} SkipsSettled(c: Codec, n: nat, t: Tree)
    requires n <= |SCRIPT| && forall j :: 0 <= j < n ==> Settled(c, SCRIPT[j], t)
    ensures Before(c, t, n) == Outcome(t, true)
  {
    if n > 0 {
      SkipsSettled(c, n - 1, t);
      BeforeNext(c, t, n - 1);
      assert Settled(c, SCRIPT[n - 1], t);
    }
  }

  /** At the crash point every earlier unit is settled, so a rerun arrives there untouched. */
  lemma RerunArrives(c: Codec, t: Tree, k: Crash)
    requires Lawful(c) && Reached(c, t, k)
    ensures Main(c, CrashTree(c, t, k)) == Rest(c, k.work, CrashTree(c, t, k))
  {
    var b, m := Before(c, t, k.work).tree, CrashTree(c, t, k);
    LeftFrame(c, k.work, b, k.step, k.tear);
    forall j | 0 <= j < k.work ensures Settled(c, SCRIPT[j], m) {
      PastIsSettled(c, t, k.work, j);
      LaterKeepsSettled(c, j, k.work, b, m);
    }
    SkipsSettled(c, k.work, m);
    BeforeNext(c, m, k.work);
  }

  /** The deletions at the end never touch what lies below `state`. */
  lemma {:induction false} DeletionsKeepState(c: Codec, n: nat, t: Tree)
    requires |MOVES| + 2 <= n <= |SCRIPT| && GATEWAY in t
    ensures GATEWAY in Rest(c, n, t).tree && Rest(c, n, t).tree[GATEWAY] == t[GATEWAY]
    decreases |SCRIPT| - n
  {
    if n < |SCRIPT| {
      var all := Plan(c, SCRIPT[n], t);
      NamesApart(|MOVES| + 1, n);
      PlanWithin(c, n, t);
      StepsFrame(all, Makes(SCRIPT[n]), Drops(SCRIPT[n]), t);
      DeletionsKeepState(c, n + 1, RunWork(c, SCRIPT[n], t).tree);
      RestStep(c, SCRIPT, n, t);
    }
  }

  lemma TornRewriteIsKept(c: Codec, t: Tree, k: Crash)
    requires Lawful(c) && Reached(c, t, k)
    requires TearsRewrite(c, SCRIPT[k.work], Before(c, t, k.work).tree, k.step, k.tear)
    ensures Main(c, CrashTree(c, t, k)).tree != Main(c, t).tree
  {
    var b, m := Before(c, t, k.work).tree, CrashTree(c, t, k);
    var n := |MOVES| + 1;
    assert SCRIPT[n] == RelabelOwners && k.work == n;
    RerunArrives(c, t, k);
    BeforeNext(c, t, n);
    var doc := c.parse(b[GATEWAY].text).value;
    var text := c.dumps(RelabelDoc(doc));
    assert Plan(c, RelabelOwners, b)[..k.step] == [];
    RewriteRan(GATEWAY, text, b);
    assert m[GATEWAY] == File(text[..k.tear.length]);
    assert Settled(c, RelabelOwners, m);
    RestStep(c, SCRIPT, n, m);
    RestStep(c, SCRIPT, n, b);
    DeletionsKeepState(c, n + 1, m);
    DeletionsKeepState(c, n + 1, b[GATEWAY := File(text)]);
    assert |text[..k.tear.length]| != |text|;
  }

  /** Main result. For every tree and every point a run can be cut short at, running the
      script again ends exactly as the uncut run would have, unless the cut left
      `gateway-state.json` half rewritten. */
  lemma RerunIsSafe(c: Codec, t: Tree, k: Crash)
    requires Lawful(c) && Reached(c, t, k)
    ensures Main(c, CrashTree(c, t, k)) == Main(c, t) <==>
            !TearsRewrite(c, SCRIPT[k.work], Before(c, t, k.work).tree, k.step, k.tear)
  {
    var b, m, w := Before(c, t, k.work).tree, CrashTree(c, t, k), SCRIPT[k.work];
    if TearsRewrite(c, w, b, k.step, k.tear) {
      TornRewriteIsKept(c, t, k);
    } else {
      RerunArrives(c, t, k);
      ResumeWork(c, k.work, b, k.step, k.tear);
      BeforeNext(c, t, k.work);
      RestStep(c, SCRIPT, k.work, b);
      RestStep(c, SCRIPT, k.work, m);
    }
  }
}
