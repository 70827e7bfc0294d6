/**
 What the migration does to the document in `gateway-state.json`, told from the fields before and
 after, and where the script's table sends each name of the old layout.
 */
module HomeGateway {
  import opened Wrappers
  import opened HomeTree
  import opened Json
  import opened HomeMigration
  import opened HomeRelocation
  import opened HomeFate

  type Fields = seq<(string, Json)>

  // ---- Two documents side by side

  /** The same keys in the same order, and the same value under every key but one. */
  ghost predicate SameBut(a: Fields, b: Fields, key: string) {
    && |a| == |b|
    && (forall i :: 0 <= i < |a| ==> b[i].0 == a[i].0)
    && (forall i :: 0 <= i < |a| && a[i].0 != key ==> b[i].1 == a[i].1)
  }

  /** A session of a web owner, whose owner is now a user's and otherwise the same. */
  ghost predicate OwnerRenamed(a: Json, b: Json) {
    && a.JObj? && b.JObj? && SameBut(a.fields, b.fields, "owner")
    && match (Lookup(a.fields, "owner"), Lookup(b.fields, "owner"))
       case (Some(JObj(x)), Some(JObj(y))) =>
         && SameBut(x, y, "channel")
         && Lookup(x, "channel") == Some(JStr("web")) && Lookup(y, "channel") == Some(JStr("user"))
       case _ => false
  }

  ghost predicate WebOwner(a: Json) {
    && a.JObj?
    && match Lookup(a.fields, "owner")
       case Some(JObj(x)) => Lookup(x, "channel") == Some(JStr("web"))
       case _ => false
  }

  ghost predicate SessionKept(a: Json, b: Json) {
    if WebOwner(a) then OwnerRenamed(a, b) else b == a
  }

  /** The whole document: only owners inside `sessions` differ. */
  ghost predicate OnlyOwnersDiffer(a: Json, b: Json) {
    && a.JObj? && b.JObj? && SameBut(a.fields, b.fields, "sessions")
    && match (Lookup(a.fields, "sessions"), Lookup(b.fields, "sessions"))
       case (Some(JObj(x)), Some(JObj(y))) =>
         && |x| == |y|
         && (forall i :: 0 <= i < |x| ==> y[i].0 == x[i].0)
         && (forall i :: 0 <= i < |x| ==> SessionKept(x[i].1, y[i].1))
       case (Some(JArr(x)), Some(JArr(y))) =>
         |x| == |y| && forall i :: 0 <= i < |x| ==> SessionKept(x[i], y[i])
       case (x, y) => x == y
  }

  // ---- The relabelling

  /** Looking a key up finds its first value. */
  lemma {:induction false} LookupIff(fields: Fields, key: string, value: Json)
    ensures Lookup(fields, key) == Some(value)
            <==> exists i :: 0 <= i < |fields| && fields[i] == (key, value)
                             && forall j :: 0 <= j < i ==> fields[j].0 != key
  {
    if fields != [] {
      var rest := fields[1..];
      if fields[0].0 == key {
        assert fields[0] == (key, fields[0].1);
      } else {
        LookupIff(rest, key, value);
        if Lookup(rest, key) == Some(value) {
          var i :| 0 <= i < |rest| && rest[i] == (key, value) && forall j :: 0 <= j < i ==> rest[j].0 != key;
          assert fields[i + 1] == (key, value);
          assert forall j :: 0 <= j < i + 1 ==> fields[j].0 != key;
        } else if i :| 0 <= i < |fields| && fields[i] == (key, value) && forall j :: 0 <= j < i ==> fields[j].0 != key {
          assert rest[i - 1] == (key, value);
          assert forall j :: 0 <= j < i - 1 ==> rest[j].0 == fields[j + 1].0;
          assert false;
        }
      }
    }
  }

  lemma {:induction false} ReplacedSame(fields: Fields, key: string, value: Json)
    ensures SameBut(fields, Replace(fields, key, value), key)
  {
    if fields != [] && fields[0].0 != key { ReplacedSame(fields[1..], key, value); }
  }

  lemma RelabelledKeeps(a: Json)
    ensures SessionKept(a, Relabelled(a))
  {
    if WebOwner(a) {
      var owner := Get(a, "owner").value;
      var owner' := JObj(Replace(owner.fields, "channel", JStr("user")));
      ReplacedSame(owner.fields, "channel", JStr("user"));
      LookupReplaced(owner.fields, "channel", JStr("user"));
      ReplacedSame(a.fields, "owner", owner');
      LookupReplaced(a.fields, "owner", owner');
    }
  }

  lemma RelabelKeepsDocument(doc: Json)
    requires doc.JObj?
    ensures OnlyOwnersDiffer(doc, RelabelDoc(doc))
  {
    match Get(doc, "sessions")
    case Some(JObj(x)) =>
      var y := seq(|x|, i requires 0 <= i < |x| => (x[i].0, Relabelled(x[i].1)));
      ReplacedSame(doc.fields, "sessions", JObj(y));
      LookupReplaced(doc.fields, "sessions", JObj(y));
      forall i | 0 <= i < |x| ensures SessionKept(x[i].1, y[i].1) { RelabelledKeeps(x[i].1); }
    case Some(JArr(x)) =>
      ReplacedSame(doc.fields, "sessions", JArr(RelabelAll(x)));
      LookupReplaced(doc.fields, "sessions", JArr(RelabelAll(x)));
      forall i | 0 <= i < |x| ensures SessionKept(x[i], RelabelAll(x)[i]) { RelabelledKeeps(x[i]); }
    case _ =>
  }

  lemma {:induction false} NoneOwned(items: seq<Json>)
    ensures WebOwned(items) == 0 <==> forall i :: 0 <= i < |items| ==> !WebOwner(items[i])
  {
    if items != [] { NoneOwned(items[1..]); }
  }

  /** Whether some session is a web owner's. */
  ghost predicate HasWebOwner(doc: Json) {
    && doc.JObj?
    && match Lookup(doc.fields, "sessions")
       case Some(JObj(x)) => exists i :: 0 <= i < |x| && WebOwner(x[i].1)
       case Some(JArr(x)) => exists i :: 0 <= i < |x| && WebOwner(x[i])
       case _ => false
  }

  lemma OwnedIff(doc: Json)
    requires SessionItems(doc).Some?
    ensures WebOwned(SessionItems(doc).value) > 0 <==> HasWebOwner(doc)
  {
    var items := SessionItems(doc).value;
    NoneOwned(items);
    match Get(doc, "sessions")
    case Some(JObj(x)) => assert forall i :: 0 <= i < |x| ==> items[i] == x[i].1;
    case Some(JArr(x)) => assert Falsy(JArr(x)) ==> x == [];
    case _ =>
  }

  lemma SameDocument(doc: Json)
    requires doc.JObj? && !HasWebOwner(doc)
    ensures OnlyOwnersDiffer(doc, doc)
  {
  }

  lemma RelabelledHolds(c: Codec, text: string)
    requires Lawful(c)
    ensures var after := RelabelledText(c, text);
            match c.parse(text)
            case None => after == text
            case Some(doc) =>
              && (!HasWebOwner(doc) ==> after == text)
              && (doc.JObj? ==> c.parse(after).Some? && OnlyOwnersDiffer(doc, c.parse(after).value))
  {
    if c.parse(text).Some? {
      var doc := c.parse(text).value;
      if SessionItems(doc).Some? { OwnedIff(doc); }
      if doc.JObj? && HasWebOwner(doc) { RelabelKeepsDocument(doc); }
      if doc.JObj? && !HasWebOwner(doc) { SameDocument(doc); }
    }
  }

  /** Where the gateway state comes from: its own place, or the old layout's when the directory
      moves. */
  function OldState(t: Tree): Path {
    if GATEWAY in t then GATEWAY else ["imd", "gateway-state.json"]
  }

  /** Main result on the gateway state: after a completed run it holds the document it held, with
      the same fields in the same order, all as they were but for the channel of the web-owned
      sessions' owners. */
  lemma GatewayDocument(c: Codec, t: Tree)
    requires Lawful(c) && Main(c, t).ok && WellFormed(t)
    requires OldState(t) in t && t[OldState(t)].File? && (GATEWAY in t || ["state", "im"] !in t)
    ensures var u, text := Main(c, t).tree, t[OldState(t)].text;
            && GATEWAY in u && u[GATEWAY].File?
            && match c.parse(text)
               case None => u[GATEWAY].text == text
               case Some(doc) =>
                 && (!HasWebOwner(doc) ==> u[GATEWAY].text == text)
                 && (doc.JObj? ==>
                       && c.parse(u[GATEWAY].text).Some?
                       && OnlyOwnersDiffer(doc, c.parse(u[GATEWAY].text).value))
  {
    GatewayEnds(c, t);
    RelabelledHolds(c, t[OldState(t)].text);
  }

  // ---- The layout

  /** Everything at and below `src` is at and below `dst` in the end, if `dst` was free. */
  ghost predicate Ends(c: Codec, t: Tree, src: Path, dst: Path) {
    var u := Main(c, t).tree;
    dst !in t ==>
      forall s: Path :: src + s in t ==>
        src + s !in u && dst + s in u && (dst + s != GATEWAY ==> u[dst + s] == t[src + s])
  }

  lemma MoveEnds(c: Codec, t: Tree, j: nat)
    requires Main(c, t).ok && WellFormed(t) && j < |MOVES| && SCRIPT[j].Move? && SCRIPT[j].src != []
    ensures Ends(c, t, SCRIPT[j].src, SCRIPT[j].dst)
  {
    var src, dst, u := SCRIPT[j].src, SCRIPT[j].dst, Main(c, t).tree;
    if dst !in t {
      forall s: Path | src + s in t
        ensures src + s !in u && dst + s in u && (dst + s != GATEWAY ==> u[dst + s] == t[src + s])
      {
        assert (src + s)[..|src|] == src;
        assert s == [] ==> src + s == src;
        Relocated(c, t, j, s);
        if dst + s == GATEWAY { StateArrives(c, t, j, s); }
      }
    }
  }

  lemma StateArrives(c: Codec, t: Tree, j: nat, s: Path)
    requires Main(c, t).ok && WellFormed(t) && j < |MOVES| && SCRIPT[j].Move? && SCRIPT[j].src + s in t
    requires SCRIPT[j].dst !in t && SCRIPT[j].dst + s == GATEWAY
    ensures GATEWAY in Main(c, t).tree
  {
    var q := SCRIPT[j].src + s;
    Names(j);
    assert q[..|SCRIPT[j].src|] == SCRIPT[j].src;
    assert Goes(t, j, q) && NewPlace(j, q) == GATEWAY;
    Arrives(c, t, j, q);
  }

  /** The table of the script's documentation, name by name. */
  lemma Layout(c: Codec, t: Tree)
    requires Main(c, t).ok && WellFormed(t)
    ensures Ends(c, t, ["web-token"], ["secrets", "web-token"])
    ensures Ends(c, t, ["im", "credentials.json"], ["secrets", "im-credentials.json"])
    ensures Ends(c, t, ["hub-cache"], ["cache", "hub"])
    ensures Ends(c, t, ["imd"], ["state", "im"])
    ensures Ends(c, t, ["progress"], ["state", "progress"])
    ensures Ends(c, t, ["harness"], ["state", "harness"])
    ensures Ends(c, t, ["pty"], ["state", "pty"])
  {
    MoveEnds(c, t, 0);
    MoveEnds(c, t, 1);
    MoveEnds(c, t, 2);
    MoveEnds(c, t, 3);
    MoveEnds(c, t, 4);
    MoveEnds(c, t, 5);
    MoveEnds(c, t, 6);
  }

  /** What is deleted and what is kept, name by name. */
  lemma Leftovers(c: Codec, t: Tree, q: Path)
    requires Main(c, t).ok && WellFormed(t) && q in t && q != []
    ensures q[0] in {"phases", "templates", "inbox", "control", "teams-progress.jsonl", "config.yaml.bak", "im"}
            ==> q !in Main(c, t).tree
    ensures q[0] in {"config.yaml", "hooks", "run"} ==> q in Main(c, t).tree && Main(c, t).tree[q] == t[q]
  {
    if q[0] in DELETED || q[0] in {"config.yaml", "hooks", "run"} { WhereItGoes(c, t, q); }
    if q[0] in {"config.yaml", "hooks", "run"} { assert forall i: nat :: i < |MOVES| ==> !Goes(t, i, q); }
  }

  /** Which tenants a `tenants.json` lists: those in the array under `tenants`, none without that
      entry or in a document that is no object, and a value there that is no container is an error. */
  lemma TenantsListed(doc: Json, items: seq<Json>)
    ensures doc.JObj? && Get(doc, "tenants") == Some(JArr(items)) ==> TenantList(doc) == Some(items)
    ensures !doc.JObj? || Get(doc, "tenants") == None ==> TenantList(doc) == Some([])
    ensures doc.JObj? && Get(doc, "tenants").Some? ==>
              var v := Get(doc, "tenants").value;
              (TenantList(doc).None? <==> v.JNull? || v.JBool? || v.JNum?)
  {
  }

  /** Which sessions a gateway state holds: the values of an object or the elements of an array under
      `sessions`, none for an absent or falsy entry, and anything else is an error. */
  lemma SessionsHeld(doc: Json, items: seq<Json>)
    ensures doc.JObj? && Get(doc, "sessions") == Some(JArr(items)) ==> SessionItems(doc) == Some(items)
    ensures doc.JObj?
            && Get(doc, "sessions") in {None, Some(JNull), Some(JBool(false)), Some(JNum(0.0)), Some(JStr(""))}
            ==> SessionItems(doc) == Some([])
    ensures doc.JObj? && Get(doc, "sessions").Some? && Get(doc, "sessions").value.JObj? ==>
              var held := Get(doc, "sessions").value.fields;
              && SessionItems(doc).Some? && |SessionItems(doc).value| == |held|
              && forall i :: 0 <= i < |held| ==> SessionItems(doc).value[i] == held[i].1
    ensures SessionItems(doc).None? <==>
            || !doc.JObj?
            || Get(doc, "sessions") == Some(JBool(true))
            || (Get(doc, "sessions").Some? && Get(doc, "sessions").value.JNum? && Get(doc, "sessions").value.n != 0.0)
  {
  }

  /** A tenant's file is named after its id. */
  lemma TenantFileIsNamed(c: Codec, a: string, b: string)
    ensures TenantPath(c, JStr(a)) == ["secrets", "users", a + ".json"]
    ensures TenantPath(c, JStr(a)) == TenantPath(c, JStr(b)) <==> a == b
  {
    assert (a + ".json")[..|a|] == a && (b + ".json")[..|b|] == b;
    if TenantPath(c, JStr(a)) == TenantPath(c, JStr(b)) {
      assert TenantPath(c, JStr(a))[2] == a + ".json" && TenantPath(c, JStr(b))[2] == b + ".json";
    }
  }
}
