/** An object that the leaf read loses, because the one before it is read twice, is denied by the fast path. */
module LostParent {
  import opened Options
  import opened Order
  import opened TupleText
  import opened IteratorStreams
  import opened Model
  import opened Check
  import opened Soundness
  import opened FastPath
  import opened FastMeaning
  import opened ConditionFilter
  import opened TwoSided
  import opened FastTwoSided
  import opened LeafRead
  import M = OrderedMerge
  import R = MergeRuns
  import K = RepeatedKeys

  /** The names of the relation and the tupleset, and the objects. */
  datatype Names = Names(viewer: string, parent: string, folder: Object, one: Object, two: Object) {
    ghost predicate Valid() {
      && viewer != "" && one.typ == two.typ && folder.typ != one.typ && ':' !in one.typ && ':' !in folder.typ &&
           two.id != "*" && Ordered()
    }

    ghost predicate Ordered() {
      ValidObject(ObjectString(one)) && ValidObject(ObjectString(two)) && Less(ObjectString(one), ObjectString(two))
    }
  }

  /** The documents are viewed by users and by everyone, and are the parents of the folder. */
  ghost predicate FolderModel(w: World, user: User, n: Names) {
    n.Valid() && FolderTypes(w, user, n) && FolderRelations(w, user, n)
  }

  ghost predicate FolderRelations(w: World, user: User, n: Names) {
    && (forall r :: (n.one.typ, r) in w.relations <==> r == n.viewer)
    && w.relations[(n.one.typ, n.viewer)] == Relation(This, [Direct(user.obj.typ), Public(user.obj.typ)])
    && (n.folder.typ, n.parent) in w.relations &&
         w.relations[(n.folder.typ, n.parent)] == Relation(This, [Direct(n.one.typ)])
    && PathKey(user.obj.typ, "", n.viewer, n.one.typ) in w.paths &&
         w.paths[PathKey(user.obj.typ, "", n.viewer, n.one.typ)]
  }

  ghost predicate FolderTypes(w: World, user: User, n: Names) {
    && user.relation == "" && user.obj.id != "*" && w.fast == imap[] && n.one.typ in w.types
    && (forall t :: t in w.types ==> ':' !in t) && TypesOk(w) && (forall k :: k in w.relations ==> k.1 != "")
  }

  /** `one#viewer@user`, `one#viewer@everyone`, `two#viewer@user` and `folder#parent@two`. */
  ghost predicate FolderTuples(w: World, user: User, n: Names) {
    && w.Rows(n.one, n.viewer) == [Row(user, Met), Row(WildcardOf(user.obj.typ), Met)] &&
         w.Rows(n.two, n.viewer) == [Row(user, Met)]
    && w.Rows(n.folder, n.parent) == [Row(User(n.two, ""), Met)]
    && forall o: Object, r: string ::
         o.typ == n.one.typ && (o, r) !in {(n.one, n.viewer), (n.two, n.viewer)} ==> w.Rows(o, r) == []
  }

  ghost predicate FolderWorld(w: World, user: User, n: Names) {
    FolderModel(w, user, n) && FolderTuples(w, user, n)
  }

  /** The leaf read lists the first document only. */
  function DocScope(w: World, user: User, n: Names): Scope {
    Scope(w, user, n.one.typ, map[n.viewer := 0], map[n.viewer := {ObjectString(n.one)}])
  }

  function DocSides(w: World, user: User, n: Names, ch: seq<Msg>): map<string, Side> {
    map[n.one.typ := Side(DocScope(w, user, n), map[n.viewer := ch])]
  }

  // ------------------------------------------------------------ what is read

  function DocEntries(n: Names): seq<M.Entry> {
    [M.Entry(ObjectString(n.one), Met), M.Entry(ObjectString(n.one), Met), M.Entry(ObjectString(n.two), Met)]
  }

  lemma DocsStand(w: World, user: User, n: Names, e: M.Entry)
    requires FolderWorld(w, user, n)
    ensures e in DocEntries(n) <==> Stands(DocScope(w, user, n), n.viewer, e)
  {
    var sc, rel := DocScope(w, user, n), w.relations[(n.one.typ, n.viewer)];
    assert w.Rows(n.one, n.viewer)[0] in w.Rows(n.one, n.viewer) &&
      w.Rows(n.two, n.viewer)[0] in w.Rows(n.two, n.viewer);
    assert IsRead(rel, user, Row(user, Met));
    if Stands(sc, n.viewer, e) {
      var o: Object, row :| o.typ == sc.typ && row in w.Rows(o, n.viewer) && IsRead(rel, user, row) &&
        e == M.Entry(ObjectString(o), row.cond);
      assert o == n.one || o == n.two;
    }
  }

  lemma DocReads(w: World, user: User, n: Names)
    requires FolderWorld(w, user, n)
    ensures Reads(DocScope(w, user, n), n.viewer, StoredOnly(DocEntries(n)))
    ensures M.Sole(M.Wrap(StoredOnly(DocEntries(n))), None)
    ensures M.Joined(M.Wrap(StoredOnly(DocEntries(n)))) == DocEntries(n)
  {
    DocSorted(n);
    OneInput(DocEntries(n));
    forall e ensures e in Whole(StoredOnly(DocEntries(n))) <==> Stands(DocScope(w, user, n), n.viewer, e) {
      DocsStand(w, user, n, e);
      assert e in multiset(DocEntries(n)) <==> e in DocEntries(n);
    }
  }

  lemma DocSorted(n: Names)
    requires n.Valid()
    ensures M.Sorted(DocEntries(n)) && ObjectString(n.one) != ObjectString(n.two)
  {
    LessIrreflexive(ObjectString(n.one));
  }

  /** Only the first document is delivered. */
  lemma DocRun(n: Names)
    requires n.Valid()
    ensures var run := R.SoleRun(DocEntries(n), None);
      KeysOf(Passing(run, EntryCondition)) == [ObjectString(n.one)] && !NothingValid(run, EntryCondition)
  {
    DocSorted(n);
    K.DoubleRun(DocEntries(n));
    OneEntry(M.Entry(ObjectString(n.one), Met));
    assert KeysOf(Passing([M.Entry(ObjectString(n.one), Met)], EntryCondition)) != [];
  }

  // ------------------------------------------------------------ the answers

  lemma DocTuples(w: World, user: User, n: Names)
    requires FolderWorld(w, user, n)
    ensures CleanTuples(w, n.one.typ) && CleanRows(w, n.folder, n.parent)
  {
    var rs := w.relations[(n.one.typ, n.viewer)].restrictions;
    assert rs[0] == Direct(user.obj.typ) && rs[1] == Public(user.obj.typ);
    assert w.relations[(n.folder.typ, n.parent)].restrictions[0] == Direct(n.one.typ);
    forall o: Object, r: string | o.typ == n.one.typ ensures CleanRows(w, o, r) {}
  }

  lemma DocSide(w: World, user: User, n: Names, ch: seq<Msg>)
    requires FolderWorld(w, user, n) && Items(ch) == [ObjectString(n.one)] && !Faulty(ch)
    ensures var side := DocSides(w, user, n, ch)[n.one.typ];
      SideOk(side, w, user, n.one.typ, n.viewer) && Healthy(side, n.viewer)
  {
    var side := DocSides(w, user, n, ch)[n.one.typ];
    DocTuples(w, user, n);
    OneListed(ObjectString(n.one));
    assert multiset([ObjectString(n.one)]) == multiset({ObjectString(n.one)});
    assert LeafOk(side.scope, n.viewer, ch);
    assert PathTo(side.scope, n.viewer, n.one.typ) == PathKey(user.obj.typ, "", n.viewer, n.one.typ);
    DocDirect(w, user, n);
    DirectSide(side, n.viewer);
  }

  lemma DocDirect(w: World, user: User, n: Names)
    requires FolderModel(w, user, n)
    ensures AllDirect(DocScope(w, user, n)) && PlainUser(DocScope(w, user, n)) && ListsTyped(DocScope(w, user, n))
  {
    var rs := w.relations[(n.one.typ, n.viewer)].restrictions;
    assert rs == [Direct(user.obj.typ), Public(user.obj.typ)];
    assert n.one.typ == DocScope(w, user, n).typ;
  }

  lemma FolderSides(w: World, user: User, n: Names, ch: seq<Msg>, g: Goal)
    requires FolderWorld(w, user, n) && Items(ch) == [ObjectString(n.one)] && !Faulty(ch) && g.obj == n.folder
    requires g.user == user
    ensures ParentsOk(w, g, n.parent, n.viewer, DocSides(w, user, n, ch))
    ensures SidesHealthy(w, w.relations[(n.folder.typ, n.parent)].restrictions, n.viewer, DocSides(w, user, n, ch))
  {
    DocSide(w, user, n, ch);
    DocTuples(w, user, n);
    assert w.relations[(n.folder.typ, n.parent)].restrictions == [Direct(n.one.typ)];
  }

  lemma OneParent(w: World, user: User, n: Names)
    requires FolderWorld(w, user, n)
    ensures var rows := w.Rows(n.folder, n.parent);
      Visible(rows) == rows && !EndsInError(rows) &&
        ParentTargets(w, rows, n.viewer, user) == [Goal(n.two, n.viewer, user)]
  {
    var rows := w.Rows(n.folder, n.parent);
    assert rows[1..] == [] && |Visible(rows)| == 1;
    assert ParentTargets(w, rows[1..], n.viewer, user) == [];
    assert (n.one.typ, n.viewer) in w.relations;
  }

  lemma SecondIsViewed(w: World, user: User, n: Names)
    requires FolderWorld(w, user, n)
    ensures Derives(w, 1, Goal(n.two, n.viewer, user), true)
  {
    var g := Goal(n.two, n.viewer, user);
    DocTuples(w, user, n);
    assert CleanRows(w, n.two, n.viewer);
    assert HasMatch(w, user, n.two, n.viewer) by {
      assert RowMatches(w.relations[(n.one.typ, n.viewer)], user, w.Rows(n.two, n.viewer)[0]);
    }
    MatchAllows(w, g);
    assert DirectlyDerives(w, 0, g, true);
  }

  lemma SecondIsLost(w: World, user: User, n: Names, ch: seq<Msg>, g: Goal)
    requires FolderWorld(w, user, n) && g.obj == n.folder && g.user == user
    ensures !SomeParentMember(w, g, w.Rows(n.folder, n.parent), n.viewer, DocSides(w, user, n, ch))
  {
    DocSorted(n);
    assert w.relations[(n.one.typ, n.viewer)].rewrite == This;
  }

  lemma SlowAllows(w: World, user: User, n: Names)
    requires FolderWorld(w, user, n)
    ensures var rows := w.Rows(n.folder, n.parent);
      TargetsDerive(w, 1, ParentTargets(w, Visible(rows), n.viewer, user), EndsInError(rows), true)
  {
    OneParent(w, user, n);
    SecondIsViewed(w, user, n);
    assert [Goal(n.two, n.viewer, user)][0] == Goal(n.two, n.viewer, user);
  }

  method ReadsFirst(w: World, user: User, n: Names, peekMerge: nat -> bool, peekFilter: nat -> bool)
    returns (ch: seq<Msg>)
    requires FolderWorld(w, user, n)
    requires forall o: Object :: o.typ == n.one.typ && (o, n.viewer) in w.rows ==> ValidObject(ObjectString(o))
    ensures Items(ch) == [ObjectString(n.one)] && !Faulty(ch)
  {
    DocReads(w, user, n);
    DocRun(n);
    ch := FastPathDirect(DocScope(w, user, n), n.viewer, StoredOnly(DocEntries(n)), peekMerge, peekFilter);
  }

  /** The leaf read and the fast path over it deny the folder, although its parent is viewed by the user. */
  method LosesParent(w: World, g: Goal, n: Names, peekMerge: nat -> bool, peekFilter: nat -> bool, pick: nat -> nat,
                     leftFirst: nat -> bool)
    returns (a: Answer)
    requires FolderWorld(w, g.user, n) && g.obj == n.folder
    requires forall o: Object :: o.typ == n.one.typ && (o, n.viewer) in w.rows ==> ValidObject(ObjectString(o))
    ensures a == Answer(false, false)
    ensures var rows := w.Rows(n.folder, n.parent);
      TargetsDerive(w, 1, ParentTargets(w, Visible(rows), n.viewer, g.user), EndsInError(rows), true)
  {
    SlowAllows(w, g.user, n);
    var ch := ReadsFirst(w, g.user, n, peekMerge, peekFilter);
    FolderSides(w, g.user, n, ch, g);
    OneParent(w, g.user, n);
    SecondIsLost(w, g.user, n, ch, g);
    a := Unlisted(w, g, n.parent, n.viewer, DocSides(w, g.user, n, ch), pick, leftFirst);
  }

  /** If no read fails and no parent is listed, the fast path denies. */
  method Unlisted(w: World, g: Goal, tupleset: string, computed: string, sides: map<string, Side>, pick: nat -> nat,
                  leftFirst: nat -> bool)
    returns (a: Answer)
    requires ParentsOk(w, g, tupleset, computed, sides) && TypesOk(w) && (forall t :: t in w.types ==> ':' !in t)
    requires SidesHealthy(w, w.relations[(g.obj.typ, tupleset)].restrictions, computed, sides)
    requires !EndsInError(w.Rows(g.obj, tupleset))
    requires !SomeParentMember(w, g, Visible(w.Rows(g.obj, tupleset)), computed, sides)
    ensures a == Answer(false, false)
  {
    a := CheckTTUFastPathV2(w, g, tupleset, computed, sides, pick, leftFirst);
  }

  const ANNE := User(Object("user", "anne"), "")
  const NAMES := Names("viewer", "parent", Object("folder", "1"), Object("doc", "1"), Object("doc", "2"))

  /** `doc:1#viewer@user:anne`, `doc:1#viewer@user:*`, `doc:2#viewer@user:anne` and `folder:1#parent@doc:2`. */
  const FOLDER := World(
    {"doc", "folder", "user"},
    map[("doc", "viewer") := Relation(This, [Direct("user"), Public("user")]),
        ("folder", "parent") := Relation(This, [Direct("doc")]),
        ("folder", "viewer") := Relation(TupleToUserset("parent", "viewer"), [])],
    map[(NAMES.one, "viewer") := [Row(ANNE, Met), Row(WildcardOf("user"), Met)],
      (NAMES.two, "viewer") := [Row(ANNE, Met)],
        (NAMES.folder, "parent") := [Row(User(NAMES.two, ""), Met)]],
    map[PathKey("user", "", "viewer", "doc") := true],
    imap[]
  )

  lemma DocTexts()
    ensures NAMES.Ordered()
  {
    assert ObjectString(NAMES.one) == "doc:1" && ObjectString(NAMES.two) == "doc:2";
    DocText("doc:1", "1");
    DocText("doc:2", "2");
    DocsLess();
  }

  lemma DocText(s: string, id: string)
    requires s == "doc:" + id && (id == "1" || id == "2")
    ensures ValidObject(s)
  {
    assert s[3] == ':' && s[..3] == "doc" && s[4..] == id;
  }

  lemma NamesValid()
    ensures NAMES.Valid()
  {
    DocTexts();
  }

  lemma FolderMisleadsTypes()
    ensures FolderTypes(FOLDER, ANNE, NAMES)
  {
  }

  lemma FolderMisleadsModel()
    ensures FolderModel(FOLDER, ANNE, NAMES)
  {
    NamesValid();
    FolderMisleadsTypes();
    FolderMisleadsRelations();
  }

  lemma FolderMisleadsRelations()
    ensures FolderRelations(FOLDER, ANNE, NAMES)
  {
  }

  /** For instance, anne may view both documents, and everyone the first. */
  lemma FolderMisleads()
    ensures FolderWorld(FOLDER, ANNE, NAMES)
  {
    FolderMisleadsModel();
  }
}
