/** A model the recursive fast path is chosen for, and tuples on which its detour makes it answer wrongly. */
module DetourTaken {
  import opened TupleText
  import opened IteratorStreams
  import opened Model
  import opened Soundness
  import opened FastPath
  import opened FastMeaning
  import opened TwoSided
  import opened FastTwoSided
  import opened RecursiveMatch
  import opened RecursiveMeaning

  /** The names of the types and relations and the objects on the way. */
  datatype Names = Names(doc: string, drive: string, viewer: string, parent: string, one: Object, via: Object,
    two: Object) {
    ghost predicate Valid() {
      && doc != drive && viewer != parent && viewer != "" && parent != "" && ':' !in doc && ':' !in drive
      && one.typ == doc && two.typ == doc && via.typ == drive && one != two
      && one.id != "*" && two.id != "*" && via.id != "*" && ValidObject(ObjectString(two))
    }

    function Leaf(): Rewrite {
      TupleToUserset(parent, viewer)
    }
  }

  /** `doc#viewer: [user] or viewer from parent`, `doc#parent: [doc, drive]` and `drive#parent: [doc]`. */
  ghost predicate DriveModel(w: World, user: User, n: Names) {
    && n.Valid() && DriveTypes(w, user, n)
    && (forall k :: k in w.relations <==> k in {(n.doc, n.viewer), (n.doc, n.parent), (n.drive, n.parent)})
    && w.relations[(n.doc, n.viewer)] == Relation(Union([This, n.Leaf()]), [Direct(user.obj.typ)])
    && w.relations[(n.doc, n.parent)] == Relation(This, [Direct(n.doc), Direct(n.drive)])
    && w.relations[(n.drive, n.parent)] == Relation(This, [Direct(n.doc)])
    && PathKey(user.obj.typ, "", n.viewer, n.doc) in w.paths && w.paths[PathKey(user.obj.typ, "", n.viewer, n.doc)]
  }

  ghost predicate DriveTypes(w: World, user: User, n: Names) {
    && user.relation == "" && user.obj.id != "*" && ':' !in user.obj.typ && user.obj.typ != n.doc &&
         user.obj.typ != n.drive
    && w.fast == imap[] && n.doc in w.types && n.drive in w.types
  }

  /** `one#parent@via`, `via#parent@two` and `two#viewer@user`. */
  ghost predicate DriveTuples(w: World, user: User, n: Names) {
    && w.Rows(n.one, n.parent) == [Row(User(n.via, ""), Met)] && w.Rows(n.via, n.parent) == [Row(User(n.two, ""), Met)]
    && w.Rows(n.two, n.viewer) == [Row(user, Met)]
    && forall o: Object, r: string ::
         (o, r) !in {(n.one, n.parent), (n.via, n.parent), (n.two, n.viewer)} ==> w.Rows(o, r) == []
  }

  ghost predicate DriveWorld(w: World, user: User, n: Names) {
    DriveModel(w, user, n) && DriveTuples(w, user, n)
  }

  function DocScope(w: World, user: User, n: Names): Scope {
    Scope(w, user, n.doc, map[n.viewer := 1, n.parent := 0], map[n.viewer := {ObjectString(n.two)}])
  }

  function DocLeaves(n: Names): map<string, seq<Msg>> {
    map[n.viewer := [Batch(Iter([ObjectString(n.two)], false))]]
  }

  function DriveGraph(n: Names): Graph {
    map[ObjectString(n.via) := [Found(ObjectString(n.two))], ObjectString(n.two) := []]
  }

  // ------------------------------------------------------------ the recursive fast path is chosen

  lemma DocListed(w: World, user: User, n: Names)
    requires DriveWorld(w, user, n)
    ensures ListsAll(DocScope(w, user, n)) && ListsTyped(DocScope(w, user, n))
  {
    var sc := DocScope(w, user, n);
    assert RowMatches(w.relations[(n.doc, n.viewer)], user, w.Rows(n.two, n.viewer)[0]);
    DirectMember(sc, n.two, n.viewer);
    forall r ensures sc.Listed(r) == DirectObjects(w, user, n.doc, r) {
      forall x | x in DirectObjects(w, user, n.doc, r) ensures r == n.viewer && x == ObjectString(n.two) {
        var k :| k in w.rows.Keys && k.0.typ == n.doc && k.1 == r && HasMatch(w, user, k.0, r) &&
          ObjectString(k.0) == x;
        OnlyMatch(w, user, n, k.0, r);
      }
    }
    AllTyped(sc);
  }

  lemma OnlyMatch(w: World, user: User, n: Names, o: Object, r: string)
    requires DriveWorld(w, user, n) && o.typ == n.doc && HasMatch(w, user, o, r)
    ensures o == n.two && r == n.viewer
  {
    assert User(n.via, "") != user && User(n.via, "") != WildcardOf(user.obj.typ);
    var i :| 0 <= i < |w.Rows(o, r)| && RowMatches(w.relations[(o.typ, r)], user, w.Rows(o, r)[i]);
  }

  lemma DriveValid(w: World, user: User, n: Names)
    requires DriveWorld(w, user, n)
    ensures ValidWorld(w)
  {
    assert w.relations[(n.doc, n.viewer)].restrictions[0] == Direct(user.obj.typ);
    assert w.relations[(n.doc, n.parent)].restrictions[1] == Direct(n.drive);
    assert w.relations[(n.drive, n.parent)].restrictions[0] == Direct(n.doc);
    forall o, s ensures CleanRows(w, o, s) {}
  }

  lemma DriveInScope(w: World, user: User, n: Names)
    requires DriveModel(w, user, n)
    ensures var sc := DocScope(w, user, n);
      && InScope(sc, n.viewer, Union([This, n.Leaf()])) && InScope(sc, n.viewer, n.Leaf()) &&
           InScope(sc, n.viewer, This)
      && WellFormedAll(sc) && PlainUser(sc)
  {
    var sc := DocScope(w, user, n);
    forall r | (n.doc, r) in w.relations
      ensures r in sc.rank && RefersBelow(w, n.doc, sc.rank, w.relations[(n.doc, r)].rewrite, sc.rank[r])
    {
    }
    forall r | (n.doc, r) in w.relations ensures WellFormed(sc, w.relations[(n.doc, r)].rewrite) {}
  }

  lemma DriveRecursive(w: World, user: User, n: Names)
    requires DriveModel(w, user, n) && InScope(DocScope(w, user, n), n.viewer, Union([This, n.Leaf()]))
    ensures var sc, rw := DocScope(w, user, n), Union([This, n.Leaf()]);
      RecursiveLeaf(sc, n.viewer, n.Leaf()) && Recursive(sc, n.viewer, rw, n.Leaf()) && Contains(rw, n.Leaf())
  {
    var sc, rw := DocScope(w, user, n), Union([This, n.Leaf()]);
    assert w.relations[(n.doc, n.viewer)].restrictions == [Direct(user.obj.typ)];
    assert WeightOne(sc, n.viewer, This);
    assert rw.children[1] == n.Leaf();
  }

  lemma DriveReady(w: World, user: User, n: Names)
    requires DriveWorld(w, user, n)
    ensures RecursiveReady(DocScope(w, user, n), n.viewer, n.Leaf()) && Detour(DocScope(w, user, n), n.viewer, n.Leaf())
  {
    DocListed(w, user, n);
    DriveValid(w, user, n);
    DriveInScope(w, user, n);
    DriveRecursive(w, user, n);
    DriveDetour(w, user, n);
  }

  lemma DriveDetour(w: World, user: User, n: Names)
    requires DriveModel(w, user, n)
    ensures Detour(DocScope(w, user, n), n.viewer, n.Leaf())
  {
    var sc, leaf := DocScope(w, user, n), n.Leaf();
    assert w.relations[(n.doc, n.parent)].restrictions[1] == Direct(n.drive);
    assert w.relations[(n.drive, n.parent)].restrictions[0] == Direct(n.doc);
    assert StepAllowed(sc, n.viewer, leaf, n.drive, Direct(n.doc)) && Returns(sc, n.viewer, leaf, n.doc, 0);
    assert Returns(sc, n.viewer, leaf, n.drive, 1);
    assert StepAllowed(sc, n.viewer, leaf, n.doc, Direct(n.drive)) &&
      !OwnRestriction(sc, n.viewer, leaf, Direct(n.drive));
  }

  // ------------------------------------------------------------ what is read

  lemma OneRow(row: Row)
    requires row.cond.Met? && NamesObject(row)
    ensures Select([row], NamesObject) == [row] && Visible([row]) == [row] && !EndsInError([row])
  {
    assert [row][1..] == [] && Visible([row][1..]) == [] && Select([row][1..], NamesObject) == [];
    assert |Visible([row])| == 1;
  }

  lemma OneStep(w: World, user: User, n: Names, o: Object, p: Object)
    requires DriveModel(w, user, n) && w.Rows(o, n.parent) == [Row(User(p, ""), Met)] && p.id != "*"
    ensures var sc := DocScope(w, user, n);
      && Steps(sc, n.viewer, n.Leaf(), o) == [Row(User(p, ""), Met)]
      && Delivers(sc, n.viewer, n.Leaf(), o, [Found(ObjectString(p))])
  {
    var sc, row := DocScope(w, user, n), Row(User(p, ""), Met);
    OneRow(row);
    assert StepRows(sc, n.viewer, n.Leaf(), o) == [row];
    assert ParentMessages([row]) == [Found(ObjectString(p))];
  }

  lemma NoStep(w: World, user: User, n: Names, o: Object)
    requires DriveModel(w, user, n) && w.Rows(o, n.parent) == []
    ensures Delivers(DocScope(w, user, n), n.viewer, n.Leaf(), o, [])
  {
    assert StepRows(DocScope(w, user, n), n.viewer, n.Leaf(), o) == [];
    assert ParentMessages([]) == [];
  }

  lemma DriveReads(w: World, user: User, n: Names)
    requires DriveWorld(w, user, n)
    ensures GraphOk(DocScope(w, user, n), n.viewer, n.Leaf(), DriveGraph(n))
    ensures Delivers(DocScope(w, user, n), n.viewer, n.Leaf(), n.one, [Found(ObjectString(n.via))])
  {
    var sc, g := DocScope(w, user, n), DriveGraph(n);
    OneStep(w, user, n, n.one, n.via);
    OneStep(w, user, n, n.via, n.two);
    NoStep(w, user, n, n.two);
    forall o: Object | ':' !in o.typ && ObjectString(o) in g
      ensures Delivers(sc, n.viewer, n.Leaf(), o, g[ObjectString(o)])
    {
      if ObjectString(o) == ObjectString(n.two) { ObjectStringParts(o, n.two); } else { ObjectStringParts(o, n.via); }
    }
  }

  lemma DriveReached(n: Names, s: set<string>, x: string, m: nat)
    requires n.Valid() && s == {ObjectString(n.via)} && ReachedBy(DriveGraph(n), s, x, m)
    ensures x in {ObjectString(n.via), ObjectString(n.two)}
  {
    var t := {ObjectString(n.via), ObjectString(n.two)};
    assert [Found(ObjectString(n.two))][0] == Found(ObjectString(n.two));
    ReachedInside(DriveGraph(n), s, t, x, m);
  }

  /** No read fails, and nothing is further away than two tuples. */
  lemma DriveNear(n: Names, s: set<string>, m: int)
    requires n.Valid() && s == {ObjectString(n.via)} && m >= 2
    ensures !SomeReadFails(DriveGraph(n), s) && !Far(DriveGraph(n), s, m)
  {
    var g := DriveGraph(n);
    assert ReachedBy(g, s, ObjectString(n.via), 0);
    ViaFirst(n, s);
    forall x | Reaches(g, s, x) ensures !ReadFails(g, x) && !NotCloser(g, s, x, m) {
      var k: nat :| ReachedBy(g, s, x, k);
      DriveReached(n, s, x, k);
    }
  }

  lemma ViaFirst(n: Names, s: set<string>)
    requires n.Valid() && s == {ObjectString(n.via)}
    ensures ReachedBy(DriveGraph(n), s, ObjectString(n.two), 1) && ObjectString(n.via) != ObjectString(n.two)
  {
    var g := DriveGraph(n);
    if ObjectString(n.via) == ObjectString(n.two) { ObjectStringParts(n.via, n.two); }
    assert ReachedBy(g, s, ObjectString(n.via), 0) && g[ObjectString(n.via)][0].obj == ObjectString(n.two);
    assert ObjectString(n.two) in Next(g, ObjectString(n.via));
  }

  // ------------------------------------------------------------ the answers

  lemma DriveFound(w: World, user: User, n: Names)
    requires DriveWorld(w, user, n) && RecursiveReady(DocScope(w, user, n), n.viewer, n.Leaf())
    ensures SearchFinds(DocScope(w, user, n), n.viewer, n.Leaf(), n.one)
  {
    var sc, leaf := DocScope(w, user, n), n.Leaf();
    OneStep(w, user, n, n.one, n.via);
    OneStep(w, user, n, n.via, n.two);
    assert RewriteOf(sc, n.viewer).children[0] == This;
    assert ObjectString(n.two) in sc.Listed(n.viewer);
    assert InBase(sc, n.viewer, n.two);
    StepFinds(sc, n.viewer, leaf, n.via, false, Row(User(n.two, ""), Met), 0);
    StepFinds(sc, n.viewer, leaf, n.one, false, Row(User(n.via, ""), Met), 1);
  }

  /** The only parent does not define the relation, so the slow path has nothing to dispatch. */
  lemma NothingDispatched(w: World, user: User, n: Names)
    requires DriveWorld(w, user, n)
    ensures var sc := DocScope(w, user, n);
      TargetsDerive(w, 0, TargetsOf(sc, n.viewer, n.Leaf(), n.one),
        EndsInError(LeafRows(sc, n.viewer, n.Leaf(), n.one)), false)
  {
    var row := Row(User(n.via, ""), Met);
    OneRow(row);
    assert [row][1..] == [];
    assert SkipsParent(w, n.drive, n.viewer);
    assert ParentTargets(w, [row], n.viewer, user) == [];
  }

  /**
   * The recursive fast path is chosen and allows, as a drive between the documents leads it to one the
   * user may view, although a viewer of a drive's parent is no viewer of the document.
   */
  method TakesDetour(w: World, user: User, n: Names, depth: nat, maxDepth: nat, userFirst: nat -> bool)
    returns (a: Answer)
    requires DriveWorld(w, user, n) && depth + 5 <= maxDepth
    ensures a == Answer(true, false)
    ensures var sc := DocScope(w, user, n);
      TargetsDerive(w, 0, TargetsOf(sc, n.viewer, n.Leaf(), n.one),
        EndsInError(LeafRows(sc, n.viewer, n.Leaf(), n.one)), false)
  {
    var sc, parents := DocScope(w, user, n), [Found(ObjectString(n.via))];
    DriveReady(w, user, n);
    DriveReads(w, user, n);
    DriveFound(w, user, n);
    NothingDispatched(w, user, n);
    DriveLeaves(w, user, n);
    DriveNear(n, {ObjectString(n.via)}, maxDepth - depth - 3);
    OneFound(ObjectString(n.via));
    a := RecursiveFastPathV2(sc, n.viewer, n.Leaf(), n.one, DocLeaves(n), parents, DriveGraph(n), depth, maxDepth,
      userFirst);
  }

  lemma OneFound(x: string)
    ensures FoundIn([Found(x)]) == {x} && !RightFails([Found(x)])
  {
    assert [Found(x)][0] == Found(x);
  }

  lemma DriveLeaves(w: World, user: User, n: Names)
    requires DriveModel(w, user, n) && InScope(DocScope(w, user, n), n.viewer, Union([This, n.Leaf()]))
    ensures LeavesOk(DocScope(w, user, n), DocLeaves(n)) && !SomeLeafFaulty(DocLeaves(n))
    ensures Starts(DocScope(w, user, n), n.viewer, Union([This, n.Leaf()]), DocLeaves(n))
  {
    OneListed(ObjectString(n.two));
  }

  const ANNE := User(Object("user", "anne"), "")
  const NAMES := Names("doc", "drive", "viewer", "parent", Object("doc", "1"), Object("drive", "1"), Object("doc", "2"))

  /** `doc:1#parent@drive:1`, `drive:1#parent@doc:2` and `doc:2#viewer@user:anne`. */
  const DRIVE := World(
    {"doc", "drive", "user"},
    map[("doc", "viewer") := Relation(Union([This, TupleToUserset("parent", "viewer")]), [Direct("user")]),
        ("doc", "parent") := Relation(This, [Direct("doc"), Direct("drive")]),
        ("drive", "parent") := Relation(This, [Direct("doc")])],
    map[(NAMES.one, "parent") := [Row(User(NAMES.via, ""), Met)],
      (NAMES.via, "parent") := [Row(User(NAMES.two, ""), Met)],
        (NAMES.two, "viewer") := [Row(ANNE, Met)]],
    map[PathKey("user", "", "viewer", "doc") := true],
    imap[]
  )

  lemma DocIsValid()
    ensures ValidObject(ObjectString(NAMES.two))
  {
    var s := ObjectString(NAMES.two);
    assert s == "doc:2" && s[3] == ':' && s[..3] == "doc" && s[4..] == "2";
  }

  /** For instance, anne may view the second document, the parent of a drive that is the parent of the first. */
  lemma DriveMisleads()
    ensures DriveWorld(DRIVE, ANNE, NAMES)
  {
    DriveMisleadsModel();
  }

  lemma DriveMisleadsModel()
    ensures DriveModel(DRIVE, ANNE, NAMES)
  {
    DriveMisleadsNames();
  }

  lemma DriveMisleadsNames()
    ensures NAMES.Valid() && DriveTypes(DRIVE, ANNE, NAMES)
  {
    DocIsValid();
  }
}
