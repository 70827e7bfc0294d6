/**
 What becomes of every entry of a home in a completed run of the migration: where it ends, with
 what contents, and exactly which entries are lost.
 */
module HomeFate {
  import opened Wrappers
  import opened HomeTree
  import opened Json
  import opened HomeMigration
  import opened HomeRelocation

  /** Every entry lies in directories. */
  ghost predicate WellFormed(t: Tree) {
    forall q, k: nat :: q in t && 0 < k < |q| ==> q[..k] in t && t[q[..k]].Dir?
  }

  /** The text of the gateway state after the relabelling: rewritten when some session was
      web-owned, and otherwise as it was. */
  function RelabelledText(c: Codec, text: string): string {
    match c.parse(text)
    case None => text
    case Some(doc) =>
      match SessionItems(doc)
      case None => text
      case Some(items) => if WebOwned(items) == 0 then text else c.dumps(RelabelDoc(doc))
  }

  /** What a node holds in the end at path `p`. */
  function AtEnd(c: Codec, p: Path, n: Node): Node {
    if p == GATEWAY && n.File? then File(RelabelledText(c, n.text)) else n
  }

  lemma RelabelEnds(c: Codec, t: Tree)
    requires RunWork(c, RelabelOwners, t).ok && GATEWAY in t
    ensures var u := RunWork(c, RelabelOwners, t).tree;
            GATEWAY in u && u[GATEWAY] == AtEnd(c, GATEWAY, t[GATEWAY])
  {
    if !Settled(c, RelabelOwners, t) {
      RewriteRan(GATEWAY, c.dumps(RelabelDoc(c.parse(t[GATEWAY].text).value)), t);
    }
  }

  // ---- Entries that stay

  /** The unit leaves an entry at `q` alone. */
  predicate Keeps(c: Codec, w: Work, t: Tree, q: Path) {
    || Settled(c, w, t)
    || match w
       case Move(src, dst) => src != [] && dst != [] && src[0] != dst[0] && !(src <= q) && !(dst <= q)
       case SplitTenants => q != TENANTS && (USERS < q ==> LastWritten(c, t, q).None?)
       case RelabelOwners => q != GATEWAY
       case Delete(name) => !([name] <= q)
  }

  lemma WorkKeeps(c: Codec, w: Work, t: Tree, q: Path)
    requires Keeps(c, w, t, q) && RunWork(c, w, t).ok && q in t
    ensures q in RunWork(c, w, t).tree && RunWork(c, w, t).tree[q] == t[q]
  {
    if !Settled(c, w, t) {
      match w
      case Move(src, dst) =>
        var made := Mkdirs(Parent(dst), 0, t);
        MoveDone(src, dst, t);
        assert made[..|made|] == made;
        MkdirsKeepExisting(Parent(dst), t, |made|, q);
        MovedEntries(RunSteps(made, t).tree, src, dst, q);
      case SplitTenants => SplitKeeps(c, t, q);
      case RelabelOwners =>
        RewriteRan(GATEWAY, c.dumps(RelabelDoc(c.parse(t[GATEWAY].text).value)), t);
      case Delete(name) =>
        OneStep(Plan(c, w, t)[0], t);
    }
  }

  lemma SplitKeeps(c: Codec, t: Tree, q: Path)
    requires RunWork(c, SplitTenants, t).ok && !Settled(c, SplitTenants, t) && q in t && q != TENANTS
    requires USERS < q ==> LastWritten(c, t, q).None?
    ensures q in RunWork(c, SplitTenants, t).tree && RunWork(c, SplitTenants, t).tree[q] == t[q]
  {
    if USERS < q {
      SplitFile(c, t, q);
    } else {
      SplitDone(c, t);
      var made := Mkdirs(USERS, 0, t);
      var writes := TenantWrites(c, TenantList(Doc(c, t).value).value);
      assert made[..|made|] == made;
      MkdirsKeepExisting(USERS, t, |made|, q);
      assert forall i :: 0 <= i < |writes| ==> USERS < writes[i].path;
      WritesChange(writes, RunSteps(made, t).tree, q);
    }
  }

  lemma {:induction false} StagesKeep(c: Codec, t: Tree, i: nat, n: nat, q: Path)
    requires i <= n <= |SCRIPT| && Before(c, t, n).ok
    requires Before(c, t, i).ok ==> q in Before(c, t, i).tree
    requires forall j :: i <= j < n ==> Keeps(c, SCRIPT[j], Before(c, t, j).tree, q)
    ensures Before(c, t, i).ok
    ensures q in Before(c, t, n).tree && Before(c, t, n).tree[q] == Before(c, t, i).tree[q]
  {
    if i < n {
      BeforeNext(c, t, n - 1);
      StagesKeep(c, t, i, n - 1, q);
      WorkKeeps(c, SCRIPT[n - 1], Before(c, t, n - 1).tree, q);
    }
  }

  const DELETED := {"phases", "templates", "inbox", "control", "teams-progress.jsonl", "config.yaml.bak", "im"}

  /** The entry lies where a move would take it from, and the move's target is free. */
  predicate Goes(t: Tree, j: nat, q: Path)
    requires j < |MOVES|
  {
    SCRIPT[j].Move? && SCRIPT[j].src <= q && SCRIPT[j].dst !in t
  }

  lemma Names(j: nat)
    requires j < |SCRIPT|
    ensures j < |MOVES| <==> SCRIPT[j].Move?
    ensures SCRIPT[j].SplitTenants? <==> j == |MOVES|
    ensures SCRIPT[j].RelabelOwners? <==> j == |MOVES| + 1
    ensures SCRIPT[j].Delete? ==> SCRIPT[j].name in DELETED
    ensures SCRIPT[j].Move? ==>
              |SCRIPT[j].src| in {1, 2} && |SCRIPT[j].dst| == 2 && SCRIPT[j].src[0] != SCRIPT[j].dst[0]
  {
  }

  /** Targets are where they were when their move comes up. */
  lemma TargetUntouched(c: Codec, t: Tree, j: nat)
    requires Main(c, t).ok && j < |MOVES|
    ensures SCRIPT[j].Move? && SameAt(t, Before(c, t, j).tree, SCRIPT[j].dst)
  {
    Names(j);
    EndStages(c, t, j);
    forall i | 0 <= i < j ensures Spares(SCRIPT[i], SCRIPT[j].dst) { MoveSpares(i, j, []); }
    StagesSpare(c, t, 0, j, SCRIPT[j].dst);
    assert SCRIPT[..0] == [];
  }

  /** An entry no move takes is kept by every unit but the relabelling and the deletions. */
  lemma UnitKeeps(c: Codec, t: Tree, q: Path, j: nat)
    requires Main(c, t).ok && WellFormed(t) && q in t && q != [] && j < |SCRIPT|
    requires q == TENANTS ==> Doc(c, t).None?
    requires forall i :: 0 <= i < |MOVES| ==> !Goes(t, i, q)
    requires USERS < q ==> LastWritten(c, t, q).None?
    requires SCRIPT[j].Delete? ==> !([SCRIPT[j].name] <= q)
    requires SCRIPT[j].RelabelOwners? ==> q != GATEWAY
    ensures Keeps(c, SCRIPT[j], Before(c, t, j).tree, q)
  {
    Names(j);
    if j < |MOVES| {
      TargetUntouched(c, t, j);
      assert !Goes(t, j, q);
      if SCRIPT[j].dst <= q {
        assert q[..|SCRIPT[j].dst|] == SCRIPT[j].dst;
        assert |SCRIPT[j].dst| == |q| ==> SCRIPT[j].dst == q;
      }
    } else if j == |MOVES| {
      EndStages(c, t, j);
      MovesSpareTenants();
      StagesSpare(c, t, 0, j, TENANTS);
      assert SCRIPT[..0] == [];
    }
  }

  /** An entry no move takes and no deletion names is still there in the end. */
  lemma Stays(c: Codec, t: Tree, q: Path)
    requires Main(c, t).ok && WellFormed(t) && q in t && q != []
    requires q == TENANTS ==> Doc(c, t).None?
    requires forall i :: 0 <= i < |MOVES| ==> !Goes(t, i, q)
    requires USERS < q ==> LastWritten(c, t, q).None?
    requires q[0] !in DELETED
    ensures q in Main(c, t).tree && Main(c, t).tree[q] == AtEnd(c, q, t[q])
  {
    var n := |MOVES| + 1;
    assert SCRIPT[..0] == [];
    forall j | 0 <= j < |SCRIPT| && (j != n || q != GATEWAY) ensures Keeps(c, SCRIPT[j], Before(c, t, j).tree, q) {
      Names(j);
      UnitKeeps(c, t, q, j);
    }
    AllBefore(c, t);
    if q == GATEWAY {
      GatewayStage(c, t, t[q], 0);
    } else {
      StagesKeep(c, t, 0, |SCRIPT|, q);
    }
  }

  /** The gateway state from some stage before the relabelling to the end. */
  lemma GatewayStage(c: Codec, t: Tree, was: Node, i: nat)
    requires Main(c, t).ok && i <= |MOVES| + 1 && Before(c, t, i).ok
    requires GATEWAY in Before(c, t, i).tree && Before(c, t, i).tree[GATEWAY] == was
    requires forall j :: i <= j < |SCRIPT| && j != |MOVES| + 1 ==> Keeps(c, SCRIPT[j], Before(c, t, j).tree, GATEWAY)
    ensures GATEWAY in Main(c, t).tree && Main(c, t).tree[GATEWAY] == AtEnd(c, GATEWAY, was)
  {
    var n := |MOVES| + 1;
    AllBefore(c, t);
    EndStages(c, t, n);
    EndStages(c, t, n + 1);
    Names(n);
    StagesKeep(c, t, i, n, GATEWAY);
    BeforeNext(c, t, n);
    RelabelEnds(c, Before(c, t, n).tree);
    StagesKeep(c, t, n + 1, |SCRIPT|, GATEWAY);
  }

  // ---- Entries that move

  function NewPlace(j: nat, q: Path): Path
    requires j < |MOVES| && SCRIPT[j].Move? && SCRIPT[j].src <= q
  {
    SCRIPT[j].dst + q[|SCRIPT[j].src|..]
  }

  /** An entry a move takes ends at its new place. */
  lemma Arrives(c: Codec, t: Tree, j: nat, q: Path)
    requires Main(c, t).ok && WellFormed(t) && q in t && j < |MOVES| && Goes(t, j, q)
    ensures var p := NewPlace(j, q);
            q !in Main(c, t).tree && p in Main(c, t).tree && Main(c, t).tree[p] == AtEnd(c, p, t[q])
  {
    var src, s := SCRIPT[j].src, q[|SCRIPT[j].src|..];
    Names(j);
    assert src + s == q;
    assert src in t by {
      assert q[..|src|] == src;
      if |src| == |q| { assert src == q; }
    }
    Relocated(c, t, j, s);
    if NewPlace(j, q) == GATEWAY {
      EndStages(c, t, j + 1);
      forall i | j < i < |SCRIPT| && i != |MOVES| + 1 ensures Keeps(c, SCRIPT[i], Before(c, t, i).tree, GATEWAY) {
        GatewaySpared(i, j, s);
      }
      GatewayStage(c, t, t[q], j + 1);
    }
  }

  lemma GatewaySpared(i: nat, j: nat, s: Path)
    requires j < |MOVES| && j < i < |SCRIPT| && i != |MOVES| + 1 && SCRIPT[j].Move? && SCRIPT[j].dst + s == GATEWAY
    ensures match SCRIPT[i]
            case Move(src, dst) => src != [] && dst != [] && src[0] != dst[0] && !(src <= GATEWAY) && !(dst <= GATEWAY)
            case SplitTenants => GATEWAY != TENANTS && !(USERS < GATEWAY)
            case RelabelOwners => false
            case Delete(name) => !([name] <= GATEWAY)
  {
    Names(i);
    Names(j);
    assert SCRIPT[j].dst == GATEWAY[..2];
    assert SCRIPT[j].dst + [] == SCRIPT[j].dst != GATEWAY;
    MoveSpares(i, j, []);
    assert GATEWAY[0] == "state" && GATEWAY[0] != "secrets" && GATEWAY[0] !in DELETED;
    assert forall d: Path :: |d| == 2 && d <= GATEWAY ==> d == GATEWAY[..2];
  }

  // ---- Entries that go

  /** An entry below a deleted name that no move takes is gone in the end. */
  lemma IsDeleted(c: Codec, t: Tree, q: Path)
    requires Main(c, t).ok && WellFormed(t) && q in t && q != []
    requires forall i :: 0 <= i < |MOVES| ==> !Goes(t, i, q)
    requires q[0] in DELETED
    ensures q !in Main(c, t).tree
  {
    var k := DeleteOf(q[0]);
    var top := [q[0]];
    assert SCRIPT[..0] == [];
    assert top in t && (q != top ==> t[top].Dir?) by {
      assert q[..1] == top;
      if |q| == 1 { assert q == top; }
    }
    EndStages(c, t, k);
    EndStages(c, t, k + 1);
    forall j | 0 <= j < k ensures Keeps(c, SCRIPT[j], Before(c, t, j).tree, top) { TopKept(c, t, q[0], j); }
    StagesKeep(c, t, 0, k, top);
    BeforeNext(c, t, k);
    var b := Before(c, t, k).tree;
    OneStep(Plan(c, SCRIPT[k], b)[0], b);
    assert q !in Before(c, t, k + 1).tree;
    AbsentToTheEnd(c, t, k + 1, q);
  }

  /** The deleted names themselves are left alone until their turn. */
  lemma TopKept(c: Codec, t: Tree, name: string, j: nat)
    requires name in DELETED && j < |SCRIPT| && SCRIPT[j] != Delete(name)
    ensures Keeps(c, SCRIPT[j], Before(c, t, j).tree, [name])
  {
    Names(j);
    match SCRIPT[j]
    case Move(src, dst) =>
      assert |src| == 1 ==> src[0] != name;
    case SplitTenants =>
      assert "tenants.json" !in DELETED && TENANTS[0] == "tenants.json";
    case RelabelOwners =>
      assert |GATEWAY| == 3;
    case Delete(other) =>
      assert [other][0] != [name][0];
  }

  lemma DeletesDiffer(j: nat, l: nat)
    requires j < l < |DELETES|
    ensures DELETES[j] != DELETES[l]
  {
    NamesApart(|MOVES| + 2 + j, |MOVES| + 2 + l);
  }

  lemma DeleteOf(name: string) returns (k: nat)
    requires name in DELETED
    ensures |MOVES| + 1 < k < |SCRIPT| && SCRIPT[k] == Delete(name)
    ensures forall i :: 0 <= i < k ==> SCRIPT[i] != Delete(name)
    ensures forall i :: k < i < |SCRIPT| ==> name !in Makes(SCRIPT[i])
  {
    var i: nat :| i < |DELETES| && DELETES[i] == Delete(name) by {
      assert DELETES[0].name == "phases" && DELETES[1].name == "templates" && DELETES[2].name == "inbox";
      assert DELETES[3].name == "control" && DELETES[4].name == "teams-progress.jsonl";
      assert DELETES[5].name == "config.yaml.bak" && DELETES[6].name == "im";
    }
    k := |MOVES| + 2 + i;
    forall j, l | 0 <= j < l < |DELETES| ensures DELETES[j] != DELETES[l] { DeletesDiffer(j, l); }
    forall i | k < i < |SCRIPT| ensures name !in Makes(SCRIPT[i]) { Names(i); }
  }

  // ---- Every entry

  /** What the split does not speak for; it is `TenantFile` that does. */
  ghost predicate NoTenant(c: Codec, t: Tree, q: Path) {
    (q == TENANTS ==> Doc(c, t).None?) && (USERS < q ==> LastWritten(c, t, q).None?)
  }

  /** Main result: where every entry of a home is after a completed run. One that a move takes is
      at its new place and nowhere else; one below a deleted name is gone; any other is where it
      was; contents are unchanged but for the owners in the gateway state. */
  lemma WhereItGoes(c: Codec, t: Tree, q: Path)
    requires Main(c, t).ok && WellFormed(t) && q in t && q != [] && NoTenant(c, t, q)
    ensures var u := Main(c, t).tree;
            && (forall j: nat :: j < |MOVES| && Goes(t, j, q) ==>
                  var p := NewPlace(j, q); q !in u && p in u && u[p] == AtEnd(c, p, t[q]))
            && ((forall j: nat :: j < |MOVES| ==> !Goes(t, j, q)) ==>
                  if q[0] in DELETED then q !in u else q in u && u[q] == AtEnd(c, q, t[q]))
  {
    forall j: nat | j < |MOVES| && Goes(t, j, q)
      ensures var p := NewPlace(j, q); var u := Main(c, t).tree; q !in u && p in u && u[p] == AtEnd(c, p, t[q])
    {
      Arrives(c, t, j, q);
    }
    if forall j: nat :: j < |MOVES| ==> !Goes(t, j, q) {
      if q[0] in DELETED { IsDeleted(c, t, q); } else { Stays(c, t, q); }
    }
  }

  /** The gateway state in the end: the one that was at its place, or that of the old layout if
      the directory moved, relabelled when some session was web-owned. */
  lemma GatewayEnds(c: Codec, t: Tree)
    requires Main(c, t).ok && WellFormed(t)
    ensures var u, im, old_ := Main(c, t).tree, ["state", "im"], ["imd", "gateway-state.json"];
            && (GATEWAY in t ==> GATEWAY in u && u[GATEWAY] == AtEnd(c, GATEWAY, t[GATEWAY]))
            && (im !in t && old_ in t ==> GATEWAY in u && u[GATEWAY] == AtEnd(c, GATEWAY, t[old_]))
  {
    if GATEWAY in t {
      assert GATEWAY[0] == "state" && GATEWAY[0] !in DELETED;
      forall j: nat | j < |MOVES| ensures !Goes(t, j, GATEWAY) {
        Names(j);
        assert SCRIPT[j].src[0] != "state";
      }
      WhereItGoes(c, t, GATEWAY);
    }
    if ["state", "im"] !in t && ["imd", "gateway-state.json"] in t {
      assert SCRIPT[3] == Move(["imd"], ["state", "im"]);
      assert Goes(t, 3, ["imd", "gateway-state.json"]);
      assert NewPlace(3, ["imd", "gateway-state.json"]) == GATEWAY;
      WhereItGoes(c, t, ["imd", "gateway-state.json"]);
    }
  }

  // ---- What is lost

  const CREDENTIALS: Path := ["im", "credentials.json"]
  const NEW_CREDENTIALS: Path := ["secrets", "im-credentials.json"]

  /** The entry is somewhere in the end, at its own place or at the new one. */
  ghost predicate Survives(c: Codec, t: Tree, q: Path)
    requires q in t
  {
    var u := Main(c, t).tree;
    || (q in u && u[q] == AtEnd(c, q, t[q]))
    || exists j: nat :: j < |MOVES| && SCRIPT[j].Move? && SCRIPT[j].src <= q
                        && NewPlace(j, q) in u && u[NewPlace(j, q)] == AtEnd(c, NewPlace(j, q), t[q])
  }

  lemma CredentialsMove(j: nat, q: Path)
    requires j < |MOVES| && SCRIPT[j].Move? && SCRIPT[j].src <= q && q != [] && q[0] in DELETED
    ensures SCRIPT[j] == Move(CREDENTIALS, NEW_CREDENTIALS) && j == 1
  {
    assert SCRIPT[j].src[0] == q[0];
  }

  lemma CredentialsSpared(i: nat, s: Path)
    requires i < |SCRIPT| && i != 1
    ensures Spares(SCRIPT[i], NEW_CREDENTIALS + s)
  {
    var p := NEW_CREDENTIALS + s;
    Names(i);
    assert p[0] == "secrets" && p[1] == "im-credentials.json";
    assert SCRIPT[1] == Move(CREDENTIALS, NEW_CREDENTIALS);
    if i == 0 {
      assert SCRIPT[0].dst == ["secrets", "web-token"];
    } else if SCRIPT[i].Move? {
      MoveSpares(i, 1, s);
    } else if i == |MOVES| {
      assert USERS[1] == "users";
    } else {
      assert "secrets" !in DELETED && GATEWAY[0] == "state";
    }
  }

  /** With the target there already, everything at and below it is as before. */
  lemma TargetKeepsItsOwn(c: Codec, t: Tree, s: Path)
    requires Main(c, t).ok && NEW_CREDENTIALS in t
    ensures SameAt(t, Main(c, t).tree, NEW_CREDENTIALS + s)
  {
    var p := NEW_CREDENTIALS + s;
    assert SCRIPT[1] == Move(CREDENTIALS, NEW_CREDENTIALS) && SCRIPT[..0] == [];
    forall i | 0 <= i < |SCRIPT| && i != 1 ensures Spares(SCRIPT[i], p) { CredentialsSpared(i, s); }
    EndStages(c, t, 1);
    EndStages(c, t, 2);
    StagesSpare(c, t, 0, 1, p);
    TargetUntouched(c, t, 1);
    BeforeNext(c, t, 1);
    KeptToTheEnd(c, t, 2, p);
  }

  /** Main result on losses, exact: the only entries that are nowhere in the end are those below
      a deleted name; among these the old IM credentials are lost exactly when the new ones were
      there already and are not the same. */
  lemma LostIff(c: Codec, t: Tree, q: Path)
    requires Main(c, t).ok && WellFormed(t) && q in t && q != [] && NoTenant(c, t, q)
    ensures Survives(c, t, q) <==>
            || q[0] !in DELETED
            || (CREDENTIALS <= q
                && (NEW_CREDENTIALS !in t
                    || var p := NEW_CREDENTIALS + q[2..]; p in t && t[p] == t[q]))
  {
    WhereItGoes(c, t, q);
    if q[0] in DELETED {
      assert SCRIPT[1] == Move(CREDENTIALS, NEW_CREDENTIALS);
      forall j: nat | j < |MOVES| && SCRIPT[j].Move? && SCRIPT[j].src <= q ensures j == 1 { CredentialsMove(j, q); }
      if CREDENTIALS <= q {
        assert NewPlace(1, q) == NEW_CREDENTIALS + q[2..];
        assert GATEWAY[0] == "state" && NewPlace(1, q)[0] == "secrets";
        if NEW_CREDENTIALS in t {
          TargetKeepsItsOwn(c, t, q[2..]);
        } else {
          assert Goes(t, 1, q);
        }
      }
    }
  }

  /** So of the credentials file: it always leaves its old place, and its text is at the new one
      exactly when that was free or held the same; what was there otherwise stays. */
  lemma CredentialsIff(c: Codec, t: Tree)
    requires Main(c, t).ok && WellFormed(t) && CREDENTIALS in t
    ensures var u := Main(c, t).tree;
            && CREDENTIALS !in u && NEW_CREDENTIALS in u
            && (u[NEW_CREDENTIALS] == t[CREDENTIALS] <==>
                  NEW_CREDENTIALS !in t || t[NEW_CREDENTIALS] == t[CREDENTIALS])
            && (NEW_CREDENTIALS in t ==> u[NEW_CREDENTIALS] == t[NEW_CREDENTIALS])
  {
    assert SCRIPT[1] == Move(CREDENTIALS, NEW_CREDENTIALS) && CREDENTIALS[0] == "im" && CREDENTIALS[0] in DELETED;
    assert CREDENTIALS[0] != "tenants.json" && CREDENTIALS[0] != "secrets";
    WhereItGoes(c, t, CREDENTIALS);
    if NEW_CREDENTIALS in t {
      assert NEW_CREDENTIALS + [] == NEW_CREDENTIALS;
      TargetKeepsItsOwn(c, t, []);
      forall j: nat | j < |MOVES| ensures !Goes(t, j, CREDENTIALS) {
        Names(j);
        if SCRIPT[j].src <= CREDENTIALS { CredentialsMove(j, CREDENTIALS); }
      }
    } else {
      assert Goes(t, 1, CREDENTIALS) && NewPlace(1, CREDENTIALS) == NEW_CREDENTIALS;
      assert GATEWAY[0] != "secrets";
    }
  }

  /** A home with credentials at both places, none of them the other's: the old ones are gone. */
  lemma CredentialsLostExample(c: Codec)
    ensures var t: Tree := map[
              ["im"] := Dir, CREDENTIALS := File("OLD"), ["secrets"] := Dir, NEW_CREDENTIALS := File("NEW")];
            && WellFormed(t) && Main(c, t).ok && !Survives(c, t, CREDENTIALS)
            && Main(c, t).tree == map[["secrets"] := Dir, NEW_CREDENTIALS := File("NEW")]
  {
    var t: Tree := map[["im"] := Dir, CREDENTIALS := File("OLD"), ["secrets"] := Dir, NEW_CREDENTIALS := File("NEW")];
    var n := |SCRIPT| - 1;
    assert SCRIPT[n] == Delete("im");
    forall j | 0 <= j < n ensures Settled(c, SCRIPT[j], t) { NothingThere(c, j, t); }
    SkipsSettled(c, n, t);
    BeforeNext(c, t, n);
    AllBefore(c, t);
    OneStep(Rmtree(["im"]), t);
    assert CREDENTIALS[..1] == ["im"] && NEW_CREDENTIALS[..1] == ["secrets"];
    assert ["im"] <= CREDENTIALS && ["secrets"][0] != "im" && NEW_CREDENTIALS[0] != "im";
    assert ["im"][0] == "im" && !(["im"] <= ["secrets"]) && !(["im"] <= NEW_CREDENTIALS);
    assert Without(t, ["im"]) == map[["secrets"] := Dir, NEW_CREDENTIALS := File("NEW")];
    LostIff(c, t, CREDENTIALS);
    assert NEW_CREDENTIALS + CREDENTIALS[2..] == NEW_CREDENTIALS;
  }

  lemma NothingThere(c: Codec, j: nat, t: Tree)
    requires j < |SCRIPT| - 1 && NEW_CREDENTIALS in t
    requires forall q :: q in t ==> q in {["im"], CREDENTIALS, ["secrets"], NEW_CREDENTIALS}
    ensures Settled(c, SCRIPT[j], t)
  {
    Names(j);
  }
}
