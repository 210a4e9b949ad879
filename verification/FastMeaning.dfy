/** The fast path preserves meaning: what it streams is exactly what the per-object check derives. */
module FastMeaning {
  import opened Model
  import opened Reducers
  import opened Check
  import opened Soundness
  import opened FastPath

  // ------------------------------------------------------------ where the fast path is used

  /** The tuples read for objects of a type: one per user, and valid. */
  ghost predicate CleanTuples(w: World, typ: string) {
    forall o: Object, r: string :: o.typ == typ ==> CleanRows(w, o, r)
  }

  ghost predicate CleanRows(w: World, o: Object, r: string) {
    var rows := w.Rows(o, r);
    && (forall i, j :: 0 <= i < j < |rows| ==> rows[i].user != rows[j].user)
    && (forall i :: 0 <= i < |rows| ==> (o.typ, r) in w.relations && RowTyped(w.relations[(o.typ, r)], rows[i]))
  }

  /** All conditions on objects of the type evaluate. */
  ghost predicate EvaluableTuples(w: World, typ: string) {
    forall o: Object, r: string :: o.typ == typ ==> Evaluable(w, o, r)
  }

  predicate Evaluable(w: World, o: Object, r: string) {
    forall i :: 0 <= i < |w.Rows(o, r)| ==> !w.Rows(o, r)[i].cond.Broken?
  }

  /** The user is an object or wildcard, and relations have names. */
  ghost predicate PlainUser(sc: Scope) {
    sc.user.relation == "" && forall k :: k in sc.w.relations ==> k.1 != ""
  }

  /** No fast path is chosen for the leaf on objects of the type. */
  ghost predicate NoFast(sc: Scope, relation: string, leaf: Rewrite) {
    forall o: Object :: o.typ == sc.typ ==> (Goal(o, relation, sc.user), leaf) !in sc.w.fast
  }

  function PathTo(sc: Scope, relation: string, typ: string): PathKey {
    PathKey(sc.user.obj.typ, sc.user.relation, relation, typ)
  }

  /** The model graph knows of no path from the user's type. */
  predicate NoPath(sc: Scope, relation: string, typ: string) {
    (typ, relation) in sc.w.relations && PathTo(sc, relation, typ) in sc.w.paths &&
      !sc.w.paths[PathTo(sc, relation, typ)]
  }

  /**
   * For the user's type the rewrite has weight one: userset restrictions and tuple-to-usersets lead
   * nowhere, so that no fast path is chosen for them, and computed relations are defined.
   */
  ghost predicate WeightOne(sc: Scope, relation: string, rw: Rewrite)
    requires InScope(sc, relation, rw) && (sc.typ, relation) in sc.w.relations
    decreases sc.rank[relation], rw
  {
    match rw
    case This =>
      var rel := sc.w.relations[(sc.typ, relation)];
      NoFast(sc, relation, rw) &&
      forall i :: 0 <= i < |rel.restrictions| && rel.restrictions[i].Userset? ==>
        NoPath(sc, rel.restrictions[i].relation, rel.restrictions[i].typ)
    case TupleToUserset(tupleset, computed) =>
      (sc.typ, tupleset) in sc.w.relations && NoFast(sc, relation, rw) &&
      var rel := sc.w.relations[(sc.typ, tupleset)];
      forall i :: 0 <= i < |rel.restrictions| ==>
        SkipsParent(sc.w, rel.restrictions[i].typ, computed) || NoPath(sc, computed, rel.restrictions[i].typ)
    case Computed(c) =>
      && (sc.typ, c) in sc.w.relations
      && PathTo(sc, c, sc.typ) in sc.w.paths
      && (!sc.w.paths[PathTo(sc, c, sc.typ)] ==> NoLeaf(sc, c, sc.w.relations[(sc.typ, c)].rewrite))
      && WeightOne(sc, c, sc.w.relations[(sc.typ, c)].rewrite)
    case Union(children) => forall i :: 0 <= i < |children| ==> WeightOne(sc, relation, children[i])
    case Intersection(children) => forall i :: 0 <= i < |children| ==> WeightOne(sc, relation, children[i])
    case Difference(base, subtract) => WeightOne(sc, relation, base) && WeightOne(sc, relation, subtract)
  }

  /** No direct assignment below the rewrite admits the user's type, which is what a missing path means. */
  ghost predicate NoLeaf(sc: Scope, relation: string, rw: Rewrite)
    requires InScope(sc, relation, rw)
    decreases sc.rank[relation], rw
  {
    match rw
    case This =>
      (sc.typ, relation) in sc.w.relations ==>
        var rel := sc.w.relations[(sc.typ, relation)];
        Direct(sc.user.obj.typ) !in rel.restrictions && Public(sc.user.obj.typ) !in rel.restrictions
    case TupleToUserset(_, _) => true
    case Computed(c) => (sc.typ, c) in sc.w.relations ==> NoLeaf(sc, c, sc.w.relations[(sc.typ, c)].rewrite)
    case Union(children) => forall i :: 0 <= i < |children| ==> NoLeaf(sc, relation, children[i])
    case Intersection(children) =>
      children != [] && forall i :: 0 <= i < |children| ==> NoLeaf(sc, relation, children[i])
    case Difference(base, subtract) => NoLeaf(sc, relation, base) && NoLeaf(sc, relation, subtract)
  }

  // ------------------------------------------------------------ membership, object by object

  lemma ObjectStringInjective(o: Object, p: Object)
    requires o.typ == p.typ && ObjectString(o) == ObjectString(p)
    ensures o == p
  {
    var n := |o.typ| + 1;
    assert ObjectString(o)[n..] == o.id;
    assert ObjectString(p)[n..] == p.id;
  }

  /** A type name contains no `:`, so the textual form determines type and id. */
  lemma ObjectStringParts(o: Object, p: Object)
    requires ':' !in o.typ && ':' !in p.typ && ObjectString(o) == ObjectString(p)
    ensures o == p
  {
    var s, a, b := ObjectString(o), |o.typ|, |p.typ|;
    assert s[a] == ':' && s[b] == ':';
    assert forall i :: 0 <= i < a ==> s[i] == o.typ[i];
    assert forall i :: 0 <= i < b ==> s[i] == p.typ[i];
    assert s[..a] == o.typ && s[..b] == p.typ;
    ObjectStringInjective(o, p);
  }

  /** Members are objects of the type. */
  lemma {:induction false} MemberTyped(sc: Scope, relation: string, rw: Rewrite, x: string) returns (o: Object)
    requires InScope(sc, relation, rw) && WellFormedAll(sc) && WellFormed(sc, rw) && ListsTyped(sc)
    requires Member(sc, relation, rw, x)
    ensures o.typ == sc.typ && x == ObjectString(o)
    decreases sc.rank[relation], rw
  {
    match rw
    case This =>
      assert x in sc.Listed(relation);
      o :| o.typ == sc.typ && x == ObjectString(o);
    case Computed(c) => o := MemberTyped(sc, c, sc.w.relations[(sc.typ, c)].rewrite, x);
    case Union(children) =>
      var i :| 0 <= i < |children| && Member(sc, relation, children[i], x);
      o := MemberTyped(sc, relation, children[i], x);
    case Intersection(children) => o := MemberTyped(sc, relation, children[0], x);
    case Difference(base, subtract) => o := MemberTyped(sc, relation, base, x);
  }

  lemma DirectMember(sc: Scope, o: Object, relation: string)
    requires o.typ == sc.typ
    ensures ObjectString(o) in DirectObjects(sc.w, sc.user, sc.typ, relation) <==> HasMatch(sc.w, sc.user, o, relation)
  {
    if ObjectString(o) in DirectObjects(sc.w, sc.user, sc.typ, relation) {
      var k :| k in sc.w.rows.Keys && k.0.typ == sc.typ && k.1 == relation && HasMatch(sc.w, sc.user, k.0, relation) &&
        ObjectString(k.0) == ObjectString(o);
      ObjectStringInjective(k.0, o);
    }
    if HasMatch(sc.w, sc.user, o, relation) {
      assert (o, relation) in sc.w.rows.Keys;
      assert (o, relation).0 == o && (o, relation).1 == relation;
    }
  }

  lemma ListedMember(sc: Scope, o: Object, relation: string)
    requires o.typ == sc.typ && ListsAll(sc)
    ensures ObjectString(o) in sc.Listed(relation) <==> HasMatch(sc.w, sc.user, o, relation)
  {
    DirectMember(sc, o, relation);
  }

  /** Without an admissible leaf there are no members. */
  lemma {:induction false} NoLeafNoMember(sc: Scope, relation: string, rw: Rewrite, o: Object)
    requires InScope(sc, relation, rw) && PlainUser(sc) && CleanTuples(sc.w, sc.typ) && ListsAll(sc) && o.typ == sc.typ
    requires NoLeaf(sc, relation, rw)
    ensures !Member(sc, relation, rw, ObjectString(o))
    decreases sc.rank[relation], rw
  {
    match rw
    case This =>
      ListedMember(sc, o, relation);
      assert CleanRows(sc.w, o, relation);
    case TupleToUserset(_, _) =>
    case Computed(c) =>
      if (sc.typ, c) in sc.w.relations { NoLeafNoMember(sc, c, sc.w.relations[(sc.typ, c)].rewrite, o); }
    case Union(children) =>
      forall i | 0 <= i < |children|
        ensures !Member(sc, relation, children[i], ObjectString(o))
      {
        NoLeafNoMember(sc, relation, children[i], o);
      }
    case Intersection(children) => NoLeafNoMember(sc, relation, children[0], o);
    case Difference(base, subtract) => NoLeafNoMember(sc, relation, base, o);
  }

  // ------------------------------------------------------------ leaves

  ghost predicate HasRow(w: World, g: Goal, row: Row) {
    exists i :: 0 <= i < |w.Rows(g.obj, g.relation)| && w.Rows(g.obj, g.relation)[i] == row
  }

  /** checkDirectUserTuple agrees with the matching tuples. */
  lemma DirectAgrees(w: World, g: Goal)
    requires CleanRows(w, g.obj, g.relation)
    ensures DirectOutcome(w, g) == ALLOWED <==> HasRow(w, g, Row(g.user, Met))
    ensures Evaluable(w, g.obj, g.relation) ==> DirectOutcome(w, g) != Err
  {
    var rows := w.Rows(g.obj, g.relation);
    var mine := DirectRows(w, g);
    SelectSome(rows, (r: Row) => r.user == g.user);
    if mine != [] {
      var j :| 0 <= j < |rows| && rows[j] == mine[0];
      forall i | 0 <= i < |rows| && rows[i].user == g.user ensures i == j {}
    }
  }

  /** checkPublicAssignable agrees with the matching wildcard tuples. */
  lemma PublicAgrees(w: World, g: Goal)
    ensures PublicOutcome(w, g) == ALLOWED <==> HasRow(w, g, Row(WildcardOf(g.user.obj.typ), Met))
    ensures Evaluable(w, g.obj, g.relation) ==> PublicOutcome(w, g) != Err
  {
    var rows := w.Rows(g.obj, g.relation);
    var all := PublicRows(w, g);
    if Evaluable(w, g.obj, g.relation) { NotBroken(rows, all); }
    if Visible(all) != [] {
      assert Visible(all)[0] in Visible(all);
      var j :| 0 <= j < |rows| && rows[j] == Visible(all)[0];
    }
    if i :| 0 <= i < |rows| && rows[i] == Row(WildcardOf(g.user.obj.typ), Met) {
      assert rows[i] in all;
      assert rows[i] in Visible(all);
    }
  }

  lemma NotBroken(rows: seq<Row>, some: seq<Row>)
    requires forall i :: 0 <= i < |rows| ==> !rows[i].cond.Broken?
    requires forall x :: x in some ==> x in rows
    ensures !EndsInError(some)
  {
    forall i | 0 <= i < |some| ensures !some[i].cond.Broken? { assert some[i] in rows; }
  }

  /** Some tuple lookup allows exactly if some tuple matches. */
  lemma MatchAllows(w: World, g: Goal)
    requires (g.obj.typ, g.relation) in w.relations && CleanRows(w, g.obj, g.relation) && g.user.relation == ""
    ensures ALLOWED in TupleOutcomes(w, w.relations[(g.obj.typ, g.relation)], g) <==>
      HasMatch(w, g.user, g.obj, g.relation)
  {
    var rel, rows := w.relations[(g.obj.typ, g.relation)], w.Rows(g.obj, g.relation);
    var fixed := TupleOutcomes(w, rel, g);
    DirectAgrees(w, g);
    PublicAgrees(w, g);
    if HasMatch(w, g.user, g.obj, g.relation) {
      var i :| 0 <= i < |rows| && RowMatches(rel, g.user, rows[i]);
      assert rows[i] == Row(rows[i].user, Met);
      if rows[i].user == g.user && g.user.obj.id != "*" {
        assert HasRow(w, g, Row(g.user, Met)) && DirectlyRelated(rel, g.user);
      } else {
        assert HasRow(w, g, Row(WildcardOf(g.user.obj.typ), Met)) && PubliclyAssignable(rel, g.user);
        assert fixed[|fixed| - 1] == ALLOWED;
      }
    }
  }

  /** If conditions evaluate, the tuple lookups do not fail. */
  lemma TuplesEvaluate(w: World, rel: Relation, g: Goal)
    requires CleanRows(w, g.obj, g.relation) && Evaluable(w, g.obj, g.relation) && ALLOWED !in TupleOutcomes(w, rel, g)
    ensures forall i :: 0 <= i < |TupleOutcomes(w, rel, g)| ==> TupleOutcomes(w, rel, g)[i] == DENIED
  {
    DirectAgrees(w, g);
    PublicAgrees(w, g);
    forall i | 0 <= i < |TupleOutcomes(w, rel, g)| ensures TupleOutcomes(w, rel, g)[i] == DENIED {
      assert TupleOutcomes(w, rel, g)[i] in TupleOutcomes(w, rel, g);
    }
  }

  /** If conditions evaluate, the direct check settles to whether a tuple matches. */
  lemma LeafSettles(sc: Scope, relation: string, o: Object, n: nat)
    requires n > 0 && PlainUser(sc) && o.typ == sc.typ && (sc.typ, relation) in sc.w.relations
    requires Evaluable(sc.w, o, relation)
    requires CleanRows(sc.w, o, relation) && InScope(sc, relation, This) && WeightOne(sc, relation, This)
    ensures DirectlyDerives(sc.w, n, Goal(o, relation, sc.user), HasMatch(sc.w, sc.user, o, relation))
  {
    var g := Goal(o, relation, sc.user);
    var rel := sc.w.relations[(sc.typ, relation)];
    MatchAllows(sc.w, g);
    if !HasMatch(sc.w, sc.user, o, relation) {
      TuplesEvaluate(sc.w, rel, g);
      if HasUsersets(rel) { UsersetsLeadNowhere(sc, relation, g, n); }
    }
  }

  /** Whatever the direct check derives is whether a tuple matches. */
  lemma LeafAgrees(sc: Scope, relation: string, o: Object, n: nat, b: bool)
    requires PlainUser(sc) && o.typ == sc.typ && (sc.typ, relation) in sc.w.relations
    requires CleanRows(sc.w, o, relation) && InScope(sc, relation, This) && WeightOne(sc, relation, This)
    requires DirectlyDerives(sc.w, n, Goal(o, relation, sc.user), b)
    ensures b == HasMatch(sc.w, sc.user, o, relation)
  {
    var g := Goal(o, relation, sc.user);
    var rel := sc.w.relations[(sc.typ, relation)];
    MatchAllows(sc.w, g);
    UsersetsRefuted(sc, relation, g, n);
  }

  ghost predicate Refuted(w: World, n: nat, targets: seq<Goal>) {
    forall i :: 0 <= i < |targets| ==> (n > 0 ==> Derives(w, n, targets[i], false)) && !Derives(w, n, targets[i], true)
  }

  /** Assigned usersets are no path for the user. */
  lemma UsersetsRefuted(sc: Scope, relation: string, g: Goal, n: nat)
    requires PlainUser(sc) && g.user == sc.user && g.obj.typ == sc.typ && g.relation == relation
    requires (sc.typ, relation) in sc.w.relations
    requires InScope(sc, relation, This) && WeightOne(sc, relation, This)
    ensures var rows := UsersetRows(sc.w, sc.w.relations[(sc.typ, relation)], g);
      Refuted(sc.w, n, UsersetTargets(Visible(rows), g.user)) &&
        !TargetsDerive(sc.w, n, UsersetTargets(Visible(rows), g.user), EndsInError(rows), true)
  {
    var rel := sc.w.relations[(sc.typ, relation)];
    var visible := Visible(UsersetRows(sc.w, rel, g));
    var targets := UsersetTargets(visible, g.user);
    forall i | 0 <= i < |targets|
      ensures (n > 0 ==> Derives(sc.w, n, targets[i], false)) && !Derives(sc.w, n, targets[i], true)
    {
      assert visible[i] in visible;
      var u := visible[i].user;
      assert Userset(u.obj.typ, u.relation) in rel.restrictions;
      assert NoPath(sc, u.relation, u.obj.typ);
      if n > 0 { NoPathDerives(sc, targets[i], n); }
      DerivesConsistent(sc.w, n, targets[i]);
    }
  }

  lemma UsersetsLeadNowhere(sc: Scope, relation: string, g: Goal, n: nat)
    requires n > 0 && PlainUser(sc) && g.user == sc.user && g.obj.typ == sc.typ && g.relation == relation
    requires (sc.typ, relation) in sc.w.relations
    requires Evaluable(sc.w, g.obj, relation) && InScope(sc, relation, This) && WeightOne(sc, relation, This)
    ensures var rows := UsersetRows(sc.w, sc.w.relations[(sc.typ, relation)], g);
      TargetsDerive(sc.w, n, UsersetTargets(Visible(rows), g.user), EndsInError(rows), false)
  {
    NotBroken(sc.w.Rows(g.obj, relation), UsersetRows(sc.w, sc.w.relations[(sc.typ, relation)], g));
    UsersetsRefuted(sc, relation, g, n);
  }

  lemma NoPathDerives(sc: Scope, t: Goal, n: nat)
    requires n > 0 && PlainUser(sc) && t.user == sc.user && NoPath(sc, t.relation, t.obj.typ)
    ensures Derives(sc.w, n, t, false)
  {
  }

  /** Parents are no path for the user. */
  lemma ParentsRefuted(sc: Scope, relation: string, rw: Rewrite, o: Object, n: nat)
    requires PlainUser(sc) && o.typ == sc.typ && (sc.typ, relation) in sc.w.relations && rw.TupleToUserset?
    requires CleanTuples(sc.w, sc.typ) && InScope(sc, relation, rw) && WeightOne(sc, relation, rw)
    ensures var rows := sc.w.Rows(o, rw.tupleset);
      var targets := ParentTargets(sc.w, Visible(rows), rw.computed, sc.user);
      Refuted(sc.w, n, targets) && !TargetsDerive(sc.w, n, targets, EndsInError(rows), true)
  {
    var visible := Visible(sc.w.Rows(o, rw.tupleset));
    var rel := sc.w.relations[(sc.typ, rw.tupleset)];
    assert CleanRows(sc.w, o, rw.tupleset);
    var targets := ParentTargets(sc.w, visible, rw.computed, sc.user);
    forall k | 0 <= k < |targets|
      ensures (n > 0 ==> Derives(sc.w, n, targets[k], false)) && !Derives(sc.w, n, targets[k], true)
    {
      assert targets[k] in targets;
      var i :| 0 <= i < |visible| && targets[k] == Goal(visible[i].user.obj, rw.computed, sc.user) &&
        !SkipsParent(sc.w, visible[i].user.obj.typ, rw.computed);
      assert visible[i] in visible;
      ParentNoPath(sc, rel, rw.computed, visible[i]);
      if n > 0 { NoPathDerives(sc, targets[k], n); }
      DerivesConsistent(sc.w, n, targets[k]);
    }
  }

  lemma ParentsLeadNowhere(sc: Scope, relation: string, rw: Rewrite, o: Object, n: nat)
    requires n > 0 && PlainUser(sc) && o.typ == sc.typ && (sc.typ, relation) in sc.w.relations && rw.TupleToUserset?
    requires CleanTuples(sc.w, sc.typ) && EvaluableTuples(sc.w, sc.typ) && InScope(sc, relation, rw)
    requires WeightOne(sc, relation, rw)
    ensures RewriteDerives(sc.w, n, Goal(o, relation, sc.user), rw, false)
  {
    var rows := sc.w.Rows(o, rw.tupleset);
    assert Evaluable(sc.w, o, rw.tupleset);
    NotBroken(rows, rows);
    ParentsRefuted(sc, relation, rw, o, n);
  }

  lemma ParentNoPath(sc: Scope, rel: Relation, computed: string, row: Row)
    requires RowTyped(rel, row)
    requires forall i :: 0 <= i < |rel.restrictions| ==>
      SkipsParent(sc.w, rel.restrictions[i].typ, computed) || NoPath(sc, computed, rel.restrictions[i].typ)
    requires !SkipsParent(sc.w, row.user.obj.typ, computed)
    ensures NoPath(sc, computed, row.user.obj.typ)
  {
  }

  // ------------------------------------------------------------ the main theorem

  /** The relation can be fast-pathed for the user's type, and a missing path means no admissible leaf. */
  ghost predicate FastReady(sc: Scope, c: string) {
    && (sc.typ, c) in sc.w.relations && InScope(sc, c, sc.w.relations[(sc.typ, c)].rewrite)
    && PathTo(sc, c, sc.typ) in sc.w.paths
    && (!sc.w.paths[PathTo(sc, c, sc.typ)] ==> NoLeaf(sc, c, sc.w.relations[(sc.typ, c)].rewrite))
    && WeightOne(sc, c, sc.w.relations[(sc.typ, c)].rewrite)
  }

  /**
   * Where the fast path applies, whatever the per-object check derives about an object of the type is
   * whether the fast path streams it, also if some conditions fail to evaluate.
   */
  lemma {:induction false} DerivedIffMember(sc: Scope, relation: string, rw: Rewrite, o: Object, n: nat, b: bool)
    requires InScope(sc, relation, rw) && (sc.typ, relation) in sc.w.relations && o.typ == sc.typ
    requires PlainUser(sc) && CleanTuples(sc.w, sc.typ) && ListsAll(sc) && WellFormedAll(sc) && WellFormed(sc, rw)
    requires WeightOne(sc, relation, rw)
    requires RewriteDerives(sc.w, n, Goal(o, relation, sc.user), rw, b)
    ensures b == Member(sc, relation, rw, ObjectString(o))
    decreases sc.rank[relation], 1, rw
  {
    var g := Goal(o, relation, sc.user);
    match rw
    case This =>
      assert CleanRows(sc.w, o, relation);
      LeafAgrees(sc, relation, o, n, b);
      ListedMember(sc, o, relation);
    case TupleToUserset(_, _) => ParentsDerived(sc, relation, rw, o, n, b);
    case Computed(c) => GoalDerived(sc, c, o, n, b);
    case Union(children) =>
      forall i, c | 0 <= i < |children| && RewriteDerives(sc.w, n, g, children[i], c)
        ensures c == Member(sc, relation, children[i], ObjectString(o))
      {
        DerivedIffMember(sc, relation, children[i], o, n, c);
      }
    case Intersection(children) =>
      forall i, c | 0 <= i < |children| && RewriteDerives(sc.w, n, g, children[i], c)
        ensures c == Member(sc, relation, children[i], ObjectString(o))
      {
        DerivedIffMember(sc, relation, children[i], o, n, c);
      }
    case Difference(base, subtract) =>
      forall c | RewriteDerives(sc.w, n, g, base, c)
        ensures c == Member(sc, relation, base, ObjectString(o))
      {
        DerivedIffMember(sc, relation, base, o, n, c);
      }
      forall c | RewriteDerives(sc.w, n, g, subtract, c)
        ensures c == Member(sc, relation, subtract, ObjectString(o))
      {
        DerivedIffMember(sc, relation, subtract, o, n, c);
      }
  }

  lemma ParentsDerived(sc: Scope, relation: string, rw: Rewrite, o: Object, n: nat, b: bool)
    requires PlainUser(sc) && o.typ == sc.typ && (sc.typ, relation) in sc.w.relations && rw.TupleToUserset?
    requires CleanTuples(sc.w, sc.typ) && InScope(sc, relation, rw) && WeightOne(sc, relation, rw)
    requires RewriteDerives(sc.w, n, Goal(o, relation, sc.user), rw, b)
    ensures !b
  {
    ParentsRefuted(sc, relation, rw, o, n);
  }

  /** The same for a goal. */
  lemma {:induction false} GoalDerived(sc: Scope, c: string, o: Object, n: nat, b: bool)
    requires FastReady(sc, c) && o.typ == sc.typ
    requires PlainUser(sc) && CleanTuples(sc.w, sc.typ) && ListsAll(sc) && WellFormedAll(sc)
    requires Derives(sc.w, n, Goal(o, c, sc.user), b)
    ensures b == Member(sc, c, sc.w.relations[(sc.typ, c)].rewrite, ObjectString(o))
    decreases sc.rank[c] + 1, 0
  {
    var child := sc.w.relations[(sc.typ, c)].rewrite;
    assert (sc.typ, c).1 != "";
    assert PathOf(Goal(o, c, sc.user)) == PathTo(sc, c, sc.typ);
    if sc.w.paths[PathTo(sc, c, sc.typ)] {
      DerivedIffMember(sc, c, child, o, n - 1, b);
    } else {
      NoLeafNoMember(sc, c, child, o);
    }
  }

  /** If all conditions evaluate, the per-object check also settles every object of the type. */
  lemma {:induction false} MemberIffDerives(sc: Scope, relation: string, rw: Rewrite, o: Object, n: nat)
    requires InScope(sc, relation, rw) && (sc.typ, relation) in sc.w.relations && o.typ == sc.typ
    requires EvaluableTuples(sc.w, sc.typ)
    requires PlainUser(sc) && CleanTuples(sc.w, sc.typ) && ListsAll(sc) && WellFormedAll(sc) && WellFormed(sc, rw)
    requires WeightOne(sc, relation, rw)
    requires n > sc.rank[relation]
    ensures RewriteDerives(sc.w, n, Goal(o, relation, sc.user), rw, Member(sc, relation, rw, ObjectString(o)))
    decreases sc.rank[relation], 1, rw
  {
    match rw
    case This =>
      assert CleanRows(sc.w, o, relation) && Evaluable(sc.w, o, relation);
      LeafSettles(sc, relation, o, n);
      ListedMember(sc, o, relation);
    case TupleToUserset(_, _) => ParentsLeadNowhere(sc, relation, rw, o, n);
    case Computed(c) => GoalAgrees(sc, c, o, n);
    case Union(children) => ChildrenAgree(sc, relation, children, o, n);
    case Intersection(children) => ChildrenAgree(sc, relation, children, o, n);
    case Difference(base, subtract) =>
      MemberIffDerives(sc, relation, base, o, n);
      MemberIffDerives(sc, relation, subtract, o, n);
  }

  /** The check of a goal whose relation can be fast-pathed then settles to membership in the streamed set. */
  lemma {:induction false} GoalAgrees(sc: Scope, c: string, o: Object, n: nat)
    requires FastReady(sc, c) && o.typ == sc.typ && EvaluableTuples(sc.w, sc.typ)
    requires PlainUser(sc) && CleanTuples(sc.w, sc.typ) && ListsAll(sc) && WellFormedAll(sc)
    requires n > sc.rank[c] + 1
    ensures Derives(sc.w, n, Goal(o, c, sc.user), Member(sc, c, sc.w.relations[(sc.typ, c)].rewrite, ObjectString(o)))
    decreases sc.rank[c] + 1, 0
  {
    var child := sc.w.relations[(sc.typ, c)].rewrite;
    assert (sc.typ, c).1 != "";
    assert PathOf(Goal(o, c, sc.user)) == PathTo(sc, c, sc.typ);
    if sc.w.paths[PathTo(sc, c, sc.typ)] {
      MemberIffDerives(sc, c, child, o, n - 1);
    } else {
      NoLeafNoMember(sc, c, child, o);
    }
  }

  lemma {:induction false} ChildrenAgree(sc: Scope, relation: string, children: seq<Rewrite>, o: Object, n: nat)
    requires relation in sc.rank && (sc.typ, relation) in sc.w.relations && o.typ == sc.typ && n > sc.rank[relation]
    requires EvaluableTuples(sc.w, sc.typ)
    requires PlainUser(sc) && CleanTuples(sc.w, sc.typ) && ListsAll(sc) && WellFormedAll(sc)
    requires forall i :: 0 <= i < |children| ==>
      InScope(sc, relation, children[i]) && WellFormed(sc, children[i]) && WeightOne(sc, relation, children[i])
    ensures forall i :: 0 <= i < |children| ==>
      RewriteDerives(sc.w, n, Goal(o, relation, sc.user), children[i],
        Member(sc, relation, children[i], ObjectString(o)))
    decreases sc.rank[relation], 1, children
  {
    forall i | 0 <= i < |children|
      ensures RewriteDerives(sc.w, n, Goal(o, relation, sc.user), children[i],
        Member(sc, relation, children[i], ObjectString(o)))
    {
      MemberIffDerives(sc, relation, children[i], o, n);
    }
  }
}
