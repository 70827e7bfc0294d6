/**
 What a completed run of the home migration does to the files a user cares about: every
 entry of the old layout is found at its new place with its contents, every tenant has its
 own file, and a second run changes nothing.
 */
module HomeRelocation {
  import opened Wrappers
  import opened HomeTree
  import opened Json
  import opened HomeMigration

  /** The unit neither moves, rewrites nor removes `q`. */
  predicate Spares(w: Work, q: Path) {
    match w
    case Move(src, dst) => src != [] && dst != [] && src[0] != dst[0] && !(src <= q) && !(dst <= q) && !(q <= dst)
    case SplitTenants => q != TENANTS && !(q <= USERS) && !(USERS <= q)
    case RelabelOwners => q != GATEWAY
    case Delete(name) => !([name] <= q)
  }

  ghost predicate SameAt(t: Tree, u: Tree, q: Path) {
    (q in t <==> q in u) && (q in t ==> t[q] == u[q])
  }

  lemma MoveDone(src: Path, dst: Path, t: Tree)
    requires dst != [] && RunSteps(Mkdirs(Parent(dst), 0, t) + [Rename(src, dst)], t).ok
    ensures var made := Mkdirs(Parent(dst), 0, t);
            && RunSteps(made, t).ok
            && RunSteps(made + [Rename(src, dst)], t).tree == Moved(RunSteps(made, t).tree, src, dst)
  {
    RunStepsConcat(Mkdirs(Parent(dst), 0, t), [Rename(src, dst)], t);
  }

  lemma WorkSpares(c: Codec, w: Work, t: Tree, q: Path)
    requires Spares(w, q) && RunWork(c, w, t).ok
    ensures SameAt(t, RunWork(c, w, t).tree, q)
  {
    if !Settled(c, w, t) {
      match w
      case Move(src, dst) =>
        var made := Mkdirs(Parent(dst), 0, t);
        MoveDone(src, dst, t);
        assert made[..|made|] == made;
        assert !(q <= Parent(dst));
        MkdirsKeep(Parent(dst), t, |made|, q);
        MovedEntries(RunSteps(made, t).tree, src, dst, q);
      case SplitTenants =>
        var writes := TenantWrites(c, TenantList(c.parse(t[TENANTS].text).value).value);
        var made := Mkdirs(USERS, 0, t);
        SplitDone(c, t);
        assert made[..|made|] == made;
        MkdirsKeep(USERS, t, |made|, q);
        assert forall s :: s in writes ==> s.path != q;
        WritesChange(writes, RunSteps(made, t).tree, q);
      case RelabelOwners =>
        RewriteRan(GATEWAY, c.dumps(RelabelDoc(c.parse(t[GATEWAY].text).value)), t);
      case Delete(name) =>
        OneStep(Plan(c, w, t)[0], t);
    }
  }

  /** A split that completed made the directory, wrote every file and unlinked the source. */
  lemma SplitDone(c: Codec, t: Tree)
    requires RunWork(c, SplitTenants, t).ok && !Settled(c, SplitTenants, t)
    ensures TenantList(c.parse(t[TENANTS].text).value).Some?
    ensures var writes := TenantWrites(c, TenantList(c.parse(t[TENANTS].text).value).value);
            var made := RunSteps(Mkdirs(USERS, 0, t), t);
            && made.ok
            && RunSteps(writes, made.tree).ok
            && RunWork(c, SplitTenants, t).tree == RunSteps(writes, made.tree).tree - {TENANTS}
            && forall i :: 0 <= i < |writes| ==> writes[i].Write?
  {
    var writes := TenantWrites(c, TenantList(c.parse(t[TENANTS].text).value).value);
    var made := Mkdirs(USERS, 0, t);
    RunStepsConcat(made, writes + [Unlink(TENANTS)], t);
    var b := RunSteps(made, t).tree;
    RunStepsConcat(writes, [Unlink(TENANTS)], b);
    assert writes[..|writes|] == writes;
    CompletedAreWrites(writes, |writes|, b);
  }

  // ---- Across units

  lemma {:induction false} StagesOk(c: Codec, t: Tree, i: nat, n: nat)
    requires i <= n <= |SCRIPT| && Before(c, t, n).ok
    ensures Before(c, t, i).ok
  {
    if i < n {
      BeforeNext(c, t, n - 1);
      StagesOk(c, t, i, n - 1);
    }
  }

  lemma {:induction false} StagesSpare(c: Codec, t: Tree, i: nat, n: nat, q: Path)
    requires i <= n <= |SCRIPT| && Before(c, t, n).ok
    requires forall j :: i <= j < n ==> Spares(SCRIPT[j], q)
    ensures Before(c, t, i).ok && SameAt(Before(c, t, i).tree, Before(c, t, n).tree, q)
  {
    if i < n {
      BeforeNext(c, t, n - 1);
      StagesSpare(c, t, i, n - 1, q);
      WorkSpares(c, SCRIPT[n - 1], Before(c, t, n - 1).tree, q);
    }
  }

  lemma NotMadeHere(c: Codec, i: nat, t: Tree, q: Path)
    requires i < |SCRIPT| && q != [] && q[0] !in Makes(SCRIPT[i]) && q !in t
    ensures q !in RunWork(c, SCRIPT[i], t).tree
  {
    PlanWithin(c, i, t);
    StepsFrame(Plan(c, SCRIPT[i], t), Makes(SCRIPT[i]), Drops(SCRIPT[i]), t);
  }

  lemma {:induction false} StaysAbsent(c: Codec, t: Tree, i: nat, n: nat, q: Path)
    requires i <= n <= |SCRIPT| && Before(c, t, n).ok && q != []
    requires forall j :: i <= j < n ==> q[0] !in Makes(SCRIPT[j])
    requires q !in Before(c, t, i).tree
    ensures q !in Before(c, t, n).tree
  {
    if i < n {
      BeforeNext(c, t, n - 1);
      StaysAbsent(c, t, i, n - 1, q);
      NotMadeHere(c, n - 1, Before(c, t, n - 1).tree, q);
    }
  }

  lemma AllBefore(c: Codec, t: Tree)
    ensures Before(c, t, |SCRIPT|) == Main(c, t)
  {
    assert SCRIPT[..|SCRIPT|] == SCRIPT;
  }

  lemma EndStages(c: Codec, t: Tree, n: nat)
    requires n <= |SCRIPT| && Main(c, t).ok
    ensures Before(c, t, n).ok
  {
    AllBefore(c, t);
    StagesOk(c, t, n, |SCRIPT|);
  }

  lemma KeptToTheEnd(c: Codec, t: Tree, n: nat, q: Path)
    requires n <= |SCRIPT| && Main(c, t).ok
    requires forall i :: n <= i < |SCRIPT| ==> Spares(SCRIPT[i], q)
    ensures SameAt(Before(c, t, n).tree, Main(c, t).tree, q)
  {
    AllBefore(c, t);
    StagesSpare(c, t, n, |SCRIPT|, q);
  }

  lemma AbsentToTheEnd(c: Codec, t: Tree, n: nat, q: Path)
    requires n <= |SCRIPT| && Main(c, t).ok && q != []
    requires forall i :: n <= i < |SCRIPT| ==> q[0] !in Makes(SCRIPT[i])
    requires q !in Before(c, t, n).tree
    ensures q !in Main(c, t).tree
  {
    AllBefore(c, t);
    StaysAbsent(c, t, n, |SCRIPT|, q);
  }

  // ---- Relocation

  lemma MoveSpares(i: nat, j: nat, s: Path)
    requires j < |MOVES| && i < |SCRIPT| && i != j
    ensures SCRIPT[j].Move?
    ensures i < j ==> Spares(SCRIPT[i], SCRIPT[j].src + s) && Spares(SCRIPT[i], SCRIPT[j].dst)
    ensures i > j && SCRIPT[j].dst + s != GATEWAY ==> Spares(SCRIPT[i], SCRIPT[j].dst + s)
    ensures i > j ==> (SCRIPT[j].src + s)[0] !in Makes(SCRIPT[i])
  {
    var src, dst := SCRIPT[j].src, SCRIPT[j].dst;
    assert |dst| == 2 && (dst + s)[0] == dst[0] && (dst + s)[1] == dst[1];
    assert (src + s)[0] == src[0];
  }

  /** Every entry of the old layout whose new place is free ends up there with its contents,
      and is gone from the old place. */
  lemma Relocated(c: Codec, t: Tree, j: nat, s: Path)
    requires Main(c, t).ok && j < |MOVES| && SCRIPT[j].Move?
    requires SCRIPT[j].src in t && SCRIPT[j].src + s in t && SCRIPT[j].dst !in t
    ensures SCRIPT[j].src + s !in Main(c, t).tree
    ensures SCRIPT[j].dst + s in Before(c, t, j + 1).tree
    ensures Before(c, t, j + 1).tree[SCRIPT[j].dst + s] == t[SCRIPT[j].src + s]
    ensures SCRIPT[j].dst + s != GATEWAY ==>
              && SCRIPT[j].dst + s in Main(c, t).tree
              && Main(c, t).tree[SCRIPT[j].dst + s] == t[SCRIPT[j].src + s]
  {
    EndStages(c, t, j + 1);
    MovedHere(c, t, j, s);
    AfterMove(j, s);
    if SCRIPT[j].dst + s != GATEWAY {
      KeptToTheEnd(c, t, j + 1, SCRIPT[j].dst + s);
    }
    AbsentToTheEnd(c, t, j + 1, SCRIPT[j].src + s);
  }

  lemma AfterMove(j: nat, s: Path)
    requires j < |MOVES| && SCRIPT[j].Move?
    ensures SCRIPT[j].dst + s != GATEWAY ==>
              forall i :: j < i < |SCRIPT| ==> Spares(SCRIPT[i], SCRIPT[j].dst + s)
    ensures SCRIPT[j].src + s != []
    ensures forall i :: j < i < |SCRIPT| ==> (SCRIPT[j].src + s)[0] !in Makes(SCRIPT[i])
  {
    forall i | j < i < |SCRIPT|
      ensures SCRIPT[j].dst + s != GATEWAY ==> Spares(SCRIPT[i], SCRIPT[j].dst + s)
      ensures (SCRIPT[j].src + s)[0] !in Makes(SCRIPT[i])
    {
      MoveSpares(i, j, s);
    }
  }

  lemma MovedHere(c: Codec, t: Tree, j: nat, s: Path)
    requires j < |MOVES| && SCRIPT[j].Move? && Before(c, t, j + 1).ok
    requires SCRIPT[j].src in t && SCRIPT[j].src + s in t && SCRIPT[j].dst !in t
    ensures SCRIPT[j].src + s !in Before(c, t, j + 1).tree
    ensures SCRIPT[j].dst + s in Before(c, t, j + 1).tree
    ensures Before(c, t, j + 1).tree[SCRIPT[j].dst + s] == t[SCRIPT[j].src + s]
  {
    var src, dst := SCRIPT[j].src, SCRIPT[j].dst;
    SourceAndTarget(j);
    BeforeNext(c, t, j);
    forall i | 0 <= i < j
      ensures Spares(SCRIPT[i], src + s) && Spares(SCRIPT[i], src) && Spares(SCRIPT[i], dst)
    {
      MoveSpares(i, j, s);
      MoveSpares(i, j, []);
      assert src + [] == src;
    }
    StagesSpare(c, t, 0, j, src + s);
    StagesSpare(c, t, 0, j, src);
    StagesSpare(c, t, 0, j, dst);
    var b := Before(c, t, j).tree;
    MoveDone(src, dst, b);
    var made := Mkdirs(Parent(dst), 0, b);
    assert made[..|made|] == made;
    assert (src + s)[0] != dst[0];
    MkdirsKeep(Parent(dst), b, |made|, src + s);
    MovedEntries(RunSteps(made, b).tree, src, dst, src + s);
    assert (src + s)[|src|..] == s;
  }

  /** A completed run leaves nothing for any unit to do, so running again changes nothing. */
  lemma SecondRunIsIdle(c: Codec, t: Tree)
    requires Lawful(c) && Main(c, t).ok
    ensures Main(c, Main(c, t).tree) == Main(c, t)
    ensures forall j :: 0 <= j < |SCRIPT| ==> Settled(c, SCRIPT[j], Main(c, t).tree)
  {
    AllBefore(c, t);
    forall j | 0 <= j < |SCRIPT| ensures Settled(c, SCRIPT[j], Main(c, t).tree) {
      PastIsSettled(c, t, |SCRIPT|, j);
    }
    SkipsSettled(c, |SCRIPT|, Main(c, t).tree);
    AllBefore(c, Main(c, t).tree);
  }

  // ---- Tenants

  predicate HasId(t: Json) {
    Get(t, "id").Some? && !Falsy(Get(t, "id").value)
  }

  /** The text the loop leaves at a path: that of the last tenant with an id and that path. */
  function LastAt(c: Codec, tenants: seq<Json>, p: Path): Option<string> {
    if tenants == [] then None
    else
      var later := LastAt(c, tenants[1..], p);
      if later.Some? then later
      else if HasId(tenants[0]) && TenantPath(c, Get(tenants[0], "id").value) == p then Some(c.dumpTenant(tenants[0]))
      else None
  }

  /** The last write to a path decides it, and a path no tenant has is left alone. */
  lemma {:induction false} WritesLeave(c: Codec, tenants: seq<Json>, t: Tree, p: Path)
    requires RunSteps(TenantWrites(c, tenants), t).ok
    ensures var u := RunSteps(TenantWrites(c, tenants), t).tree;
            match LastAt(c, tenants, p)
            case Some(text) => p in u && u[p] == File(text)
            case None => SameAt(t, u, p)
  {
    if tenants != [] {
      if HasId(tenants[0]) {
        var first := Write(TenantPath(c, Get(tenants[0], "id").value), c.dumpTenant(tenants[0]));
        assert TenantWrites(c, tenants) == [first] + TenantWrites(c, tenants[1..]);
        assert TenantWrites(c, tenants)[1..] == TenantWrites(c, tenants[1..]);
        WritesLeave(c, tenants[1..], t[first.path := File(first.text)], p);
      } else {
        WritesLeave(c, tenants[1..], t, p);
      }
    }
  }

  /** Of all elements with an id and that path, the last. */
  ghost predicate IsLast(c: Codec, tenants: seq<Json>, p: Path, k: nat) {
    && k < |tenants| && HasId(tenants[k]) && TenantPath(c, Get(tenants[k], "id").value) == p
    && forall j :: k < j < |tenants| && HasId(tenants[j]) ==> TenantPath(c, Get(tenants[j], "id").value) != p
  }

  lemma {:induction false} LastIsLeft(c: Codec, tenants: seq<Json>, p: Path, k: nat)
    requires IsLast(c, tenants, p, k)
    ensures LastAt(c, tenants, p) == Some(c.dumpTenant(tenants[k]))
  {
    var rest := tenants[1..];
    assert forall j :: 0 <= j < |rest| ==> rest[j] == tenants[j + 1];
    if k > 0 {
      LastIsLeft(c, rest, p, k - 1);
    } else {
      NoneAt(c, rest, p);
    }
  }

  lemma {:induction false} NoneAt(c: Codec, tenants: seq<Json>, p: Path)
    requires forall j :: 0 <= j < |tenants| && HasId(tenants[j]) ==> TenantPath(c, Get(tenants[j], "id").value) != p
    ensures LastAt(c, tenants, p).None?
  {
    if tenants != [] { NoneAt(c, tenants[1..], p); }
  }

  lemma {:induction false} LeftIsLast(c: Codec, tenants: seq<Json>, p: Path) returns (k: nat)
    requires LastAt(c, tenants, p).Some?
    ensures IsLast(c, tenants, p, k)
  {
    var rest := tenants[1..];
    assert forall j :: 0 <= j < |rest| ==> rest[j] == tenants[j + 1];
    if LastAt(c, rest, p).Some? {
      var k' := LeftIsLast(c, rest, p);
      k := k' + 1;
    } else {
      k := 0;
      if j :| 0 < j < |tenants| && HasId(tenants[j]) && TenantPath(c, Get(tenants[j], "id").value) == p {
        NoneMeansNone(c, rest, p, j - 1);
      }
    }
  }

  lemma {:induction false} NoneMeansNone(c: Codec, tenants: seq<Json>, p: Path, j: nat)
    requires LastAt(c, tenants, p).None? && j < |tenants| && HasId(tenants[j])
    ensures TenantPath(c, Get(tenants[j], "id").value) != p
  {
    if j > 0 { NoneMeansNone(c, tenants[1..], p, j - 1); }
  }

  /** The parsed `tenants.json`, if there is one. */
  function Doc(c: Codec, t: Tree): Option<Json> {
    if TENANTS in t && t[TENANTS].File? then c.parse(t[TENANTS].text) else None
  }

  /** The elements the file lists: its own if it is an array, those under `tenants` if it is an
      object. */
  function Listed(doc: Json): seq<Json> {
    if doc.JArr? then doc.items else if TenantList(doc).Some? then TenantList(doc).value else []
  }

  /** What the split leaves at a path, if it writes there. */
  function LastWritten(c: Codec, t: Tree, p: Path): Option<string> {
    match Doc(c, t)
    case None => None
    case Some(doc) => if doc.JObj? then LastAt(c, Listed(doc), p) else None
  }

  /** Only the split touches what is below `secrets/users`. */
  lemma TenantsSpared(q: Path)
    requires USERS < q
    ensures forall i :: 0 <= i < |SCRIPT| && i != |MOVES| ==> Spares(SCRIPT[i], q)
  {
    assert q[0] == "secrets" && q[1] == "users" && |q| > 2;
    forall i | 0 <= i < |SCRIPT| && i != |MOVES| ensures Spares(SCRIPT[i], q) {
      if i < |MOVES| {
        SourceAndTarget(i);
        assert SCRIPT[i].src[0] != "secrets" && |SCRIPT[i].dst| == 2 && SCRIPT[i].dst[1] != "users";
      } else {
        assert SCRIPT[i] == RelabelOwners || (SCRIPT[i].Delete? && SCRIPT[i].name != "secrets");
      }
    }
  }

  lemma MovesSpareTenants()
    ensures forall i :: 0 <= i < |MOVES| ==> Spares(SCRIPT[i], TENANTS)
    ensures SCRIPT[|MOVES|] == SplitTenants
  {
    forall i | 0 <= i < |MOVES| ensures Spares(SCRIPT[i], TENANTS) {
      SourceAndTarget(i);
      assert SCRIPT[i].src[0] != TENANTS[0] && SCRIPT[i].dst[0] != TENANTS[0];
    }
  }

  lemma SplitFile(c: Codec, t: Tree, p: Path)
    requires RunWork(c, SplitTenants, t).ok && USERS < p
    ensures var u := RunWork(c, SplitTenants, t).tree;
            && (match LastWritten(c, t, p)
                case Some(text) => p in u && u[p] == File(text)
                case None => SameAt(t, u, p))
            && (Doc(c, t).Some? ==> TENANTS !in u)
  {
    if !Settled(c, SplitTenants, t) {
      SplitDone(c, t);
      var made := Mkdirs(USERS, 0, t);
      assert made[..|made|] == made;
      MkdirsKeep(USERS, t, |made|, p);
      WritesLeave(c, TenantList(Doc(c, t).value).value, RunSteps(made, t).tree, p);
    }
  }

  /** The moves before the split leave the array file and the tenants' files alone. */
  lemma TenantsUpToSplit(c: Codec, t: Tree, p: Path)
    requires Main(c, t).ok && USERS < p
    ensures var n := |MOVES|;
            && Before(c, t, n).ok && Before(c, t, n + 1).ok
            && Before(c, t, n + 1) == RunWork(c, SCRIPT[n], Before(c, t, n).tree)
            && SameAt(t, Before(c, t, n).tree, TENANTS) && SameAt(t, Before(c, t, n).tree, p)
  {
    var n := |MOVES|;
    EndStages(c, t, n);
    EndStages(c, t, n + 1);
    MovesSpareTenants();
    TenantsSpared(p);
    BeforeNext(c, t, n);
    StagesSpare(c, t, 0, n, TENANTS);
    StagesSpare(c, t, 0, n, p);
  }

  /** And so does what comes after it. */
  lemma TenantsAfterSplit(c: Codec, t: Tree, p: Path)
    requires Main(c, t).ok && USERS < p
    ensures var v := Before(c, t, |MOVES| + 1).tree;
            && SameAt(v, Main(c, t).tree, p)
            && (TENANTS !in v ==> TENANTS !in Main(c, t).tree)
  {
    var n := |MOVES| + 1;
    TenantsSpared(p);
    KeptToTheEnd(c, t, n, p);
    if TENANTS !in Before(c, t, n).tree { AbsentToTheEnd(c, t, n, TENANTS); }
  }

  /** What every path below `secrets/users` holds after a completed run: the text of the last
      tenant written there, or what it held before. */
  lemma TenantFile(c: Codec, t: Tree, p: Path)
    requires Main(c, t).ok && USERS < p
    ensures var u := Main(c, t).tree;
            && (match LastWritten(c, t, p)
                case Some(text) => p in u && u[p] == File(text)
                case None => SameAt(t, u, p))
            && (Doc(c, t).Some? ==> TENANTS !in u)
  {
    TenantsUpToSplit(c, t, p);
    SplitFile(c, Before(c, t, |MOVES|).tree, p);
    TenantsAfterSplit(c, t, p);
  }

  /** After a completed run every tenant of a well-formed `tenants.json` (the last one of
      each id) is in its own file under `secrets/users`, and the array file is gone. */
  lemma TenantKept(c: Codec, t: Tree, tenants: seq<Json>, i: nat)
    requires Main(c, t).ok
    requires TENANTS in t && t[TENANTS].File? && c.parse(t[TENANTS].text).Some?
    requires TenantList(c.parse(t[TENANTS].text).value) == Some(tenants)
    requires i < |tenants| && HasId(tenants[i])
    requires forall j :: i < j < |tenants| && HasId(tenants[j]) ==>
               TenantPath(c, Get(tenants[j], "id").value) != TenantPath(c, Get(tenants[i], "id").value)
    ensures var p := TenantPath(c, Get(tenants[i], "id").value);
            p in Main(c, t).tree && Main(c, t).tree[p] == File(c.dumpTenant(tenants[i]))
    ensures TENANTS !in Main(c, t).tree
  {
    var p := TenantPath(c, Get(tenants[i], "id").value);
    LastIsLeft(c, tenants, p, i);
    TenantFile(c, t, p);
  }

  /** A `tenants.json` that is a bare array, which is what the function's own description
      calls it, is unlinked without a single tenant file being written. */
  lemma BareArrayIsDropped(c: Codec, t: Tree)
    requires TENANTS in t && t[TENANTS].File? && c.parse(t[TENANTS].text).Some?
    requires c.parse(t[TENANTS].text).value.JArr?
    requires RunWork(c, SplitTenants, t).ok
    ensures TENANTS !in RunWork(c, SplitTenants, t).tree
    ensures forall q :: USERS < q ==> SameAt(t, RunWork(c, SplitTenants, t).tree, q)
  {
    SplitDone(c, t);
    forall q | USERS < q ensures SameAt(t, RunWork(c, SplitTenants, t).tree, q) {
      SplitFile(c, t, q);
    }
  }

  /** Different tenants print differently. */
  ghost predicate DumpsApart(c: Codec) {
    forall a, b :: c.dumpTenant(a) == c.dumpTenant(b) ==> a == b
  }

  /** The tenant is in the file its id names. */
  ghost predicate InOwnFile(c: Codec, u: Tree, x: Json) {
    Get(x, "id").Some?
    && var p := TenantPath(c, Get(x, "id").value);
       p in u && u[p] == File(c.dumpTenant(x))
  }

  /** The exact condition for a listed tenant to survive, `tenants.json` itself being gone: the
      document is an object, the tenant has a truthy id, and the last tenant whose id names the
      same file is that same tenant. */
  lemma TenantSurvivesIff(c: Codec, t: Tree, i: nat)
    requires Main(c, t).ok && DumpsApart(c) && Doc(c, t).Some? && i < |Listed(Doc(c, t).value)|
    requires var x := Listed(Doc(c, t).value)[i];
             Get(x, "id").Some? ==> TenantPath(c, Get(x, "id").value) !in t
    ensures TENANTS !in Main(c, t).tree
    ensures var doc := Doc(c, t).value;
            var all := Listed(doc);
            InOwnFile(c, Main(c, t).tree, all[i]) <==>
              && doc.JObj? && HasId(all[i])
              && forall k: nat :: IsLast(c, all, TenantPath(c, Get(all[i], "id").value), k) ==> all[k] == all[i]
  {
    var doc := Doc(c, t).value;
    var all := Listed(doc);
    if Get(all[i], "id").Some? {
      var p := TenantPath(c, Get(all[i], "id").value);
      TenantFile(c, t, p);
      if LastWritten(c, t, p).Some? {
        var k := LeftIsLast(c, all, p);
        forall k: nat | IsLast(c, all, p, k) ensures LastAt(c, all, p) == Some(c.dumpTenant(all[k])) {
          LastIsLeft(c, all, p, k);
        }
      } else if doc.JObj? && HasId(all[i]) {
        NoneMeansNone(c, all, p, i);
      }
    } else {
      TenantFile(c, t, USERS + ["x"]);
    }
  }

  // ---- Owners

  lemma {:induction false} LookupOther(fields: seq<(string, Json)>, key: string, value: Json, other: string)
    requires other != key
    ensures Lookup(Replace(fields, key, value), other) == Lookup(fields, other)
  {
    if fields != [] && fields[0].0 != key { LookupOther(fields[1..], key, value, other); }
  }

  /** Relabelling a session changes its owner's channel from `web` to `user` and nothing
      else: not the chat id, not any other entry of the session. */
  lemma RelabelIsLocal(session: Json, key: string, ownerKey: string)
    requires IsWebOwned(session)
    ensures key != "owner" ==> Get(Relabelled(session), key) == Get(session, key)
    ensures Get(Relabelled(session), "owner").Some?
    ensures Get(Get(Relabelled(session), "owner").value, ownerKey) ==
            if ownerKey == "channel" then Some(JStr("user")) else Get(Get(session, "owner").value, ownerKey)
  {
    var owner := Get(session, "owner").value;
    var owner' := JObj(Replace(owner.fields, "channel", JStr("user")));
    LookupReplaced(owner.fields, "channel", JStr("user"));
    LookupReplaced(session.fields, "owner", owner');
    if key != "owner" { LookupOther(session.fields, "owner", owner', key); }
    if ownerKey != "channel" { LookupOther(owner.fields, "channel", JStr("user"), ownerKey); }
  }

  // ---- The torn rewrite, on one concrete home

  function WebSession(): Json {
    JObj([("owner", JObj([("channel", JStr("web"))]))])
  }

  function UserSession(): Json {
    JObj([("owner", JObj([("channel", JStr("user"))]))])
  }

  function OldDoc(): Json {
    JObj([("sessions", JArr([WebSession()]))])
  }

  function NewDoc(): Json {
    JObj([("sessions", JArr([UserSession()]))])
  }

  function SampleCodec(): Codec {
    Codec(text => if text == "OLD" then Some(OldDoc()) else if text == "NEW" then Some(NewDoc()) else None,
          doc => "NEW", doc => "", doc => "")
  }

  lemma ReplaceOnly(key: string, was: Json, now: Json)
    ensures Replace([(key, was)], key, now) == [(key, now)]
  {
    assert [(key, was)][1..] == [];
  }

  lemma SampleCodecIsLawful()
    ensures IsWebOwned(WebSession()) && RelabelDoc(OldDoc()) == NewDoc() && RelabelDoc(NewDoc()) == NewDoc()
    ensures Lawful(SampleCodec())
  {
    var c := SampleCodec();
    ReplaceOnly("channel", JStr("web"), JStr("user"));
    ReplaceOnly("owner", JObj([("channel", JStr("web"))]), JObj([("channel", JStr("user"))]));
    ReplaceOnly("sessions", JArr([WebSession()]), JArr([UserSession()]));
    ReplaceOnly("sessions", JArr([UserSession()]), JArr([UserSession()]));
    assert Relabelled(WebSession()) == UserSession();
    assert RelabelAll([WebSession()]) == [UserSession()];
    assert RelabelAll([UserSession()]) == [UserSession()];
    assert "NEW"[..0] == "" && "NEW"[..1] == "N" && "NEW"[..2] == "NE";
    forall k | 0 <= k < |"NEW"| ensures c.parse("NEW"[..k]) == None {
      assert k == 0 || k == 1 || k == 2;
    }
  }

  /** A home holding nothing but a gateway state with one web-owned session: cut after the
      first character of the rewrite, the rerun leaves that one character behind. */
  lemma TornRewriteExample()
    ensures var c, t, k := SampleCodec(), map[GATEWAY := File("OLD")], Crash(|MOVES| + 1, 0, Written(1));
            && Lawful(c)
            && Reached(c, t, k)
            && CrashTree(c, t, k) == map[GATEWAY := File("N")]
            && Main(c, CrashTree(c, t, k)) != Main(c, t)
  {
    var c, t, k := SampleCodec(), map[GATEWAY := File("OLD")], Crash(|MOVES| + 1, 0, Written(1));
    SampleCodecIsLawful();
    var items := [WebSession()];
    assert SessionItems(OldDoc()) == Some(items);
    assert WebOwned(items) == 1 by { assert items[1..] == []; }
    forall j | 0 <= j < k.work ensures Settled(c, SCRIPT[j], t) {
    }
    SkipsSettled(c, k.work, t);
    assert SCRIPT[k.work] == RelabelOwners;
    assert Plan(c, RelabelOwners, t) == [Write(GATEWAY, "NEW")];
    assert Plan(c, RelabelOwners, t)[..0] == [] && "NEW"[..1] == "N";
    assert t[GATEWAY := File("N")] == map[GATEWAY := File("N")];
    RerunIsSafe(c, t, k);
  }
}
