/**
 * A relation of weight one as a truth function: whether an object belongs to it depends only on which
 * of the direct relations hold, in the same way for all tuples.
 */
module LeafLogic {
  import opened Model
  import opened FastPath
  import opened FastMeaning

  /** The rewrite, given the relations of the type that hold by a tuple. */
  ghost predicate Eval(sc: Scope, relation: string, rw: Rewrite, holds: set<string>)
    requires InScope(sc, relation, rw)
    decreases sc.rank[relation], rw
  {
    match rw
    case This => relation in holds
    case TupleToUserset(_, _) => false
    case Computed(c) => (sc.typ, c) in sc.w.relations && Eval(sc, c, sc.w.relations[(sc.typ, c)].rewrite, holds)
    case Union(children) => exists i :: 0 <= i < |children| && Eval(sc, relation, children[i], holds)
    case Intersection(children) => forall i :: 0 <= i < |children| ==> Eval(sc, relation, children[i], holds)
    case Difference(base, subtract) => Eval(sc, relation, base, holds) && !Eval(sc, relation, subtract, holds)
  }

  /** The relations that hold on the object by a tuple. */
  ghost function LeafSet(sc: Scope, o: Object): set<string> {
    set k | k in sc.w.rows.Keys && k.0 == o && HasMatch(sc.w, sc.user, o, k.1) :: k.1
  }

  lemma InLeafSet(sc: Scope, o: Object, r: string)
    ensures r in LeafSet(sc, o) <==> HasMatch(sc.w, sc.user, o, r)
  {
    if HasMatch(sc.w, sc.user, o, r) { assert (o, r) in sc.w.rows.Keys && (o, r).1 == r; }
  }

  /** The tuples of every object and relation. */
  type Tuples = map<(Object, string), seq<Row>>

  /** The same scope over other tuples, with leaf reads that list the directly related objects. */
  ghost function Over(sc: Scope, rows: Tuples): (over: Scope)
    ensures ListsAll(over)
  {
    var w := sc.w.(rows := rows);
    var lists := map r | r in set k | k in rows.Keys :: k.1 :: DirectObjects(w, sc.user, sc.typ, r);
    var over := sc.(w := w, lists := lists);
    assert ListsAll(over) by {
      forall r ensures over.Listed(r) == DirectObjects(w, sc.user, sc.typ, r) {
        if r !in lists { assert DirectObjects(w, sc.user, sc.typ, r) == {}; }
      }
    }
    over
  }

  lemma {:induction false} RefersOver(sc: Scope, rows: Tuples, rw: Rewrite, bound: nat)
    ensures RefersBelow(Over(sc, rows).w, sc.typ, sc.rank, rw, bound) <==> RefersBelow(sc.w, sc.typ, sc.rank, rw, bound)
  {
    match rw
    case This =>
    case TupleToUserset(_, _) =>
    case Computed(_) =>
    case Union(children) =>
      forall i | 0 <= i < |children| { RefersOver(sc, rows, children[i], bound); }
    case Intersection(children) =>
      forall i | 0 <= i < |children| { RefersOver(sc, rows, children[i], bound); }
    case Difference(base, subtract) =>
      RefersOver(sc, rows, base, bound);
      RefersOver(sc, rows, subtract, bound);
  }

  lemma InScopeOver(sc: Scope, rows: Tuples, relation: string, rw: Rewrite)
    requires InScope(sc, relation, rw)
    ensures InScope(Over(sc, rows), relation, rw)
  {
    forall r | (sc.typ, r) in sc.w.relations
      ensures RefersBelow(Over(sc, rows).w, sc.typ, sc.rank, sc.w.relations[(sc.typ, r)].rewrite, sc.rank[r])
    {
      RefersOver(sc, rows, sc.w.relations[(sc.typ, r)].rewrite, sc.rank[r]);
    }
    RefersOver(sc, rows, rw, sc.rank[relation]);
  }

  /** Over any tuples, membership is the truth function of the relations that hold by a tuple. */
  lemma {:induction false} MemberIsEval(sc: Scope, rows: Tuples, relation: string, rw: Rewrite, o: Object)
    requires InScope(sc, relation, rw) && InScope(Over(sc, rows), relation, rw) && o.typ == sc.typ
    ensures Member(Over(sc, rows), relation, rw, ObjectString(o)) <==>
      Eval(sc, relation, rw, LeafSet(Over(sc, rows), o))
    decreases sc.rank[relation], rw
  {
    match rw
    case This =>
      ListedMember(Over(sc, rows), o, relation);
      InLeafSet(Over(sc, rows), o, relation);
    case TupleToUserset(_, _) =>
    case Computed(c) =>
      if (sc.typ, c) in sc.w.relations { MemberIsEval(sc, rows, c, sc.w.relations[(sc.typ, c)].rewrite, o); }
    case Union(children) =>
      forall i | 0 <= i < |children| { MemberIsEval(sc, rows, relation, children[i], o); }
    case Intersection(children) =>
      forall i | 0 <= i < |children| { MemberIsEval(sc, rows, relation, children[i], o); }
    case Difference(base, subtract) =>
      MemberIsEval(sc, rows, relation, base, o);
      MemberIsEval(sc, rows, relation, subtract, o);
  }

  /** Membership depends on the leaf reads only through what they list. */
  lemma {:induction false} MemberByLists(a: Scope, b: Scope, relation: string, rw: Rewrite, x: string)
    requires b == a.(lists := b.lists) && (forall r :: a.Listed(r) == b.Listed(r)) && InScope(a, relation, rw)
    requires InScope(b, relation, rw)
    ensures Member(a, relation, rw, x) <==> Member(b, relation, rw, x)
    decreases a.rank[relation], rw
  {
    match rw
    case This =>
    case TupleToUserset(_, _) =>
    case Computed(c) =>
      if (a.typ, c) in a.w.relations { MemberByLists(a, b, c, a.w.relations[(a.typ, c)].rewrite, x); }
    case Union(children) =>
      forall i | 0 <= i < |children| { MemberByLists(a, b, relation, children[i], x); }
    case Intersection(children) =>
      forall i | 0 <= i < |children| { MemberByLists(a, b, relation, children[i], x); }
    case Difference(base, subtract) =>
      MemberByLists(a, b, relation, base, x);
      MemberByLists(a, b, relation, subtract, x);
  }

  // ------------------------------------------------------------ tuples that realise a choice of leaves

  /** A tuple can relate the user, or everyone of the user's type, by the relation. */
  predicate Assignable(sc: Scope, r: string) {
    (sc.typ, r) in sc.w.relations &&
    var restrictions := sc.w.relations[(sc.typ, r)].restrictions;
    (sc.user.obj.id != "*" && Direct(sc.user.obj.typ) in restrictions) || Public(sc.user.obj.typ) in restrictions
  }

  /** A choice of relations that tuples can make hold. */
  ghost predicate Possible(sc: Scope, holds: set<string>) {
    forall r :: r in holds ==> Assignable(sc, r)
  }

  /** What holds by valid tuples is a possible choice. */
  lemma LeafSetPossible(sc: Scope, o: Object)
    requires sc.user.relation == "" && o.typ == sc.typ && CleanTuples(sc.w, sc.typ)
    ensures Possible(sc, LeafSet(sc, o))
  {
    forall r | r in LeafSet(sc, o) ensures Assignable(sc, r) {
      assert CleanRows(sc.w, o, r);
    }
  }

  /** The tuple that makes a relation hold. */
  function Witness(sc: Scope, r: string): Row
    requires Assignable(sc, r)
  {
    Row(if sc.user.obj.id != "*" && Direct(sc.user.obj.typ) in sc.w.relations[(sc.typ, r)].restrictions then sc.user
      else WildcardOf(sc.user.obj.typ), Met)
  }

  lemma WitnessMatches(sc: Scope, r: string)
    requires sc.user.relation == "" && Assignable(sc, r)
    ensures RowTyped(sc.w.relations[(sc.typ, r)], Witness(sc, r))
    ensures RowMatches(sc.w.relations[(sc.typ, r)], sc.user, Witness(sc, r))
  {
  }

  /** The tuples on an object that make exactly a choice of relations hold. */
  ghost function Realising(sc: Scope, o: Object, holds: set<string>): Tuples
    requires Possible(sc, holds)
  {
    map k | k in set r | r in holds :: (o, r) :: [Witness(sc, k.1)]
  }

  /** If the tuples on the object, as far as the user is concerned, are those, exactly the choice holds. */
  lemma Realised(sc: Scope, rows: Tuples, o: Object, holds: set<string>)
    requires sc.user.relation == "" && o.typ == sc.typ && Possible(sc, holds)
    requires forall r :: r in holds ==> (o, r) in rows && rows[(o, r)] == [Witness(sc, r)]
    requires forall r :: r !in holds ==> (o, r) !in rows
    ensures LeafSet(Over(sc, rows), o) == holds
  {
    var w := Over(sc, rows).w;
    forall r ensures r in LeafSet(Over(sc, rows), o) <==> r in holds {
      InLeafSet(Over(sc, rows), o, r);
      if r in holds {
        WitnessMatches(sc, r);
        assert w.Rows(o, r)[0] == Witness(sc, r);
      }
    }
  }
}
