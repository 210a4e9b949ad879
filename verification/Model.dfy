/** Authorization models, stored tuples and check goals. */
module Model {

  import opened Options

  /** A userset rewrite rule. */
  datatype Rewrite =
    | This
    | Computed(relation: string)
    | TupleToUserset(tupleset: string, computed: string)
    | Union(children: seq<Rewrite>)
    | Intersection(children: seq<Rewrite>)
    | Difference(base: Rewrite, subtract: Rewrite)

  /** The operands of a set operator; those of a difference are the base and what is subtracted. */
  function Operands(rw: Rewrite): (r: seq<Rewrite>)
    ensures forall i :: 0 <= i < |r| ==> r[i] < rw
  {
    match rw
    case Union(children) => children
    case Intersection(children) => children
    case Difference(base, subtract) => [base, subtract]
    case _ => []
  }

  /** A type restriction: `type`, `type:*` or `type#relation`. */
  datatype Restriction =
    | Direct(typ: string)
    | Public(typ: string)
    | Userset(typ: string, relation: string)

  datatype Relation = Relation(rewrite: Rewrite, restrictions: seq<Restriction>)

  datatype Object = Object(typ: string, id: string)

  /** A user: an object, a typed wildcard (id `*`), or a userset when `relation` is not empty. */
  datatype User = User(obj: Object, relation: string)

  /** The condition of a stored tuple, evaluated for the request at hand. */
  datatype Condition = Met | Unmet | Broken

  datatype Row = Row(user: User, cond: Condition)

  /** The question `obj#relation@user`. */
  datatype Goal = Goal(obj: Object, relation: string, user: User)

  /** PathExists is asked about the user's type and relation, the goal's relation and its object type. */
  datatype PathKey = PathKey(userType: string, userRelation: string, relation: string, objectType: string)

  /**
   * What a fast path does for a leaf: it answers, it answers or fails depending on the reads, the order
   * of arrival and the levels left, or it fails.
   */
  datatype FastAnswer = Answers(allowed: bool) | MayFail(allowed: bool) | Fails

  /**
   * Everything a check depends on: type and relation definitions, the tuples of every object and
   * relation, the answers of the model graph, where a missing answer is an error, and the answers of
   * the fast paths for the leaves where one is chosen. A leaf is a direct assignment or a
   * tuple-to-userset of the goal's relation.
   */
  datatype World = World(
    types: set<string>,
    relations: map<(string, string), Relation>,
    rows: map<(Object, string), seq<Row>>,
    paths: map<PathKey, bool>,
    fast: imap<(Goal, Rewrite), FastAnswer>
  ) {

    function GetRelation(typ: string, relation: string): Option<Relation> {
      if (typ, relation) in relations then Some(relations[(typ, relation)]) else None
    }

    function Rows(obj: Object, relation: string): seq<Row> {
      if (obj, relation) in rows then rows[(obj, relation)] else []
    }
  }

  /** A tuple that passes validation: its user matches a type restriction of the relation. */
  predicate RowTyped(rel: Relation, row: Row) {
    if row.user.relation != "" then Userset(row.user.obj.typ, row.user.relation) in rel.restrictions
    else if row.user.obj.id == "*" then Public(row.user.obj.typ) in rel.restrictions
    else Direct(row.user.obj.typ) in rel.restrictions
  }

  /** All tuples are valid, as they are after the reads have dropped the invalid ones. */
  ghost predicate TypedRows(w: World) {
    forall o: Object, r: string, i: nat :: i < |w.Rows(o, r)| ==>
      (o.typ, r) in w.relations && RowTyped(w.relations[(o.typ, r)], w.Rows(o, r)[i])
  }

  predicate SelfDefining(g: Goal) {
    g.user.relation == g.relation && g.user.obj == g.obj
  }

  function PathOf(g: Goal): PathKey {
    PathKey(g.user.obj.typ, g.user.relation, g.relation, g.obj.typ)
  }

  function WildcardOf(typ: string): User {
    User(Object(typ, "*"), "")
  }

  /** The tuples an iterator filtered by condition yields. */
  function Visible(rows: seq<Row>): (r: seq<Row>)
    ensures forall x :: x in r <==> x in rows && x.cond.Met?
  {
    if rows == [] then []
    else (if rows[0].cond.Met? then [rows[0]] else []) + Visible(rows[1..])
  }

  /** The filtered iterator ends in an error: no tuple was valid and some condition failed to evaluate. */
  predicate EndsInError(rows: seq<Row>) {
    Visible(rows) == [] && exists i :: 0 <= i < |rows| && rows[i].cond.Broken?
  }

  /** The rows that pass a test, in order. */
  function Select(rows: seq<Row>, keep: Row -> bool): (r: seq<Row>)
    ensures forall x :: x in r <==> x in rows && keep(x)
  {
    if rows == [] then []
    else (if keep(rows[0]) then [rows[0]] else []) + Select(rows[1..], keep)
  }

  lemma SelectSome(rows: seq<Row>, keep: Row -> bool)
    ensures Select(rows, keep) == [] <==> forall i :: 0 <= i < |rows| ==> !keep(rows[i])
    ensures Select(rows, keep) != [] ==> Select(rows, keep)[0] in rows && keep(Select(rows, keep)[0])
  {
  }

  // ------------------------------------------------------------ direct relationships

  /** shouldCheckDirectTuple: the user's type (and relation) is among the restrictions. */
  predicate DirectlyRelated(rel: Relation, user: User) {
    (if user.relation == "" then Direct(user.obj.typ) else Userset(user.obj.typ, user.relation)) in rel.restrictions
  }

  /** shouldCheckPublicAssignable. */
  predicate PubliclyAssignable(rel: Relation, user: User) {
    user.relation == "" && Public(user.obj.typ) in rel.restrictions
  }

  predicate HasUsersets(rel: Relation) {
    exists i :: 0 <= i < |rel.restrictions| && rel.restrictions[i].Userset?
  }

  /** DirectlyRelatedUsersets: the assigned usersets among the type restrictions, as type and relation. */
  function UsersetKeys(restrictions: seq<Restriction>): seq<(string, string)> {
    if restrictions == [] then []
    else
      var r := restrictions[0];
      (if r.Userset? then [(r.typ, r.relation)] else []) + UsersetKeys(restrictions[1..])
  }

  lemma {:induction false} KeysAdmitted(rs: seq<Restriction>)
    ensures forall k :: k in UsersetKeys(rs) <==> Userset(k.0, k.1) in rs
  {
    if rs != [] {
      assert rs == [rs[0]] + rs[1..];
      KeysAdmitted(rs[1..]);
    }
  }

  /** The rows ReadUserTuple, the wildcard read and ReadUsersetTuples return. */
  function DirectRows(w: World, g: Goal): seq<Row> {
    Select(w.Rows(g.obj, g.relation), (r: Row) => r.user == g.user)
  }

  function PublicRows(w: World, g: Goal): seq<Row> {
    Select(w.Rows(g.obj, g.relation), (r: Row) => r.user == WildcardOf(g.user.obj.typ))
  }

  /** Looking for a plain user finds nothing among assigned usersets. */
  lemma NoneSelected(w: World, g: Goal, row: Row)
    requires w.Rows(g.obj, g.relation) == [row] && row.user.relation != "" && g.user.relation == ""
    ensures DirectRows(w, g) == [] && PublicRows(w, g) == []
  {
    SelectSome(w.Rows(g.obj, g.relation), (r: Row) => r.user == g.user);
    SelectSome(w.Rows(g.obj, g.relation), (r: Row) => r.user == WildcardOf(g.user.obj.typ));
  }

  function UsersetRows(w: World, rel: Relation, g: Goal): seq<Row> {
    Select(w.Rows(g.obj, g.relation), (r: Row) => r.user.relation != "" &&
      Userset(r.user.obj.typ, r.user.relation) in rel.restrictions)
  }

  /** The subproblems of the userset tuples. */
  function UsersetTargets(rows: seq<Row>, user: User): (r: seq<Goal>)
    ensures |r| == |rows|
    ensures forall i :: 0 <= i < |rows| ==> r[i] == Goal(rows[i].user.obj, rows[i].user.relation, user)
  {
    seq(|rows|, i requires 0 <= i < |rows| => Goal(rows[i].user.obj, rows[i].user.relation, user))
  }

  /** The subproblems of a tuple-to-userset: the computed relation on every parent that defines it. */
  function ParentTargets(w: World, rows: seq<Row>, computed: string, user: User): (r: seq<Goal>)
    ensures forall t :: t in r <==>
      exists i :: 0 <= i < |rows| && t == Goal(rows[i].user.obj, computed, user) &&
        !SkipsParent(w, rows[i].user.obj.typ, computed)
  {
    if rows == [] then []
    else
      var rest := ParentTargets(w, rows[1..], computed, user);
      if SkipsParent(w, rows[0].user.obj.typ, computed) then rest
      else [Goal(rows[0].user.obj, computed, user)] + rest
  }

  /** The parent's type is known but does not define the relation. */
  predicate SkipsParent(w: World, typ: string, computed: string) {
    typ in w.types && w.GetRelation(typ, computed).None?
  }

  /** The tuples a leaf of the goal's relation reads: those that assign usersets, or those of the tupleset. */
  function LeafTuples(w: World, g: Goal, leaf: Rewrite): seq<Row>
    requires (g.obj.typ, g.relation) in w.relations
  {
    match leaf
    case This => UsersetRows(w, w.relations[(g.obj.typ, g.relation)], g)
    case TupleToUserset(tupleset, _) => w.Rows(g.obj, tupleset)
    case _ => []
  }

  /** The subproblems of a leaf. */
  function LeafTargets(w: World, g: Goal, leaf: Rewrite): seq<Goal>
    requires (g.obj.typ, g.relation) in w.relations
  {
    var visible := Visible(LeafTuples(w, g, leaf));
    if leaf.TupleToUserset? then ParentTargets(w, visible, leaf.computed, g.user) else UsersetTargets(visible, g.user)
  }
}
