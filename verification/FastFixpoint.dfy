/**
 * Where the fast path applies, what it streams is the least fixpoint of the rewrite rules, whether or
 * not conditions evaluate.
 */
module FastFixpoint {
  import opened Model
  import opened Reducers
  import opened Check
  import opened Fixpoint
  import opened FastPath
  import opened FastMeaning

  /** The scope's tuples are valid and its leaf reads complete. */
  ghost predicate Clean(sc: Scope) {
    PlainUser(sc) && CleanTuples(sc.w, sc.typ) && ListsAll(sc) && WellFormedAll(sc)
  }

  /** Without a path there is no proof. */
  lemma NoPathNoProof(sc: Scope, t: Goal)
    requires PlainUser(sc) && t.user == sc.user && NoPath(sc, t.relation, t.obj.typ)
    ensures t !in Lfp(sc.w)
  {
    assert (t.obj.typ, t.relation).1 != "";
    if t in Lfp(sc.w) { LfpUnfolds(sc.w, t); }
  }

  /** Of a direct assignment of weight one only the tuples that name the user count. */
  lemma DirectRuleIffMember(sc: Scope, relation: string, o: Object)
    requires Clean(sc) && o.typ == sc.typ && (sc.typ, relation) in sc.w.relations
    requires InScope(sc, relation, This) && WeightOne(sc, relation, This)
    ensures RewriteRule(sc.w, Lfp(sc.w), Goal(o, relation, sc.user), This) <==>
      Member(sc, relation, This, ObjectString(o))
  {
    var g := Goal(o, relation, sc.user);
    var rel := sc.w.relations[(sc.typ, relation)];
    var visible := Visible(UsersetRows(sc.w, rel, g));
    assert CleanRows(sc.w, o, relation);
    MatchAllows(sc.w, g);
    ListedMember(sc, o, relation);
    forall i | 0 <= i < |visible| ensures UsersetTargets(visible, g.user)[i] !in Lfp(sc.w) {
      assert visible[i] in visible;
      var u := visible[i].user;
      assert Userset(u.obj.typ, u.relation) in rel.restrictions;
      assert NoPath(sc, u.relation, u.obj.typ);
      NoPathNoProof(sc, UsersetTargets(visible, g.user)[i]);
    }
  }

  /** A tuple-to-userset of weight one proves nothing. */
  lemma ParentRuleFails(sc: Scope, relation: string, rw: Rewrite, o: Object)
    requires Clean(sc) && o.typ == sc.typ && (sc.typ, relation) in sc.w.relations && rw.TupleToUserset?
    requires InScope(sc, relation, rw) && WeightOne(sc, relation, rw)
    ensures !RewriteRule(sc.w, Lfp(sc.w), Goal(o, relation, sc.user), rw)
  {
    var visible := Visible(sc.w.Rows(o, rw.tupleset));
    var targets := ParentTargets(sc.w, visible, rw.computed, sc.user);
    assert CleanRows(sc.w, o, rw.tupleset);
    forall k | 0 <= k < |targets| ensures targets[k] !in Lfp(sc.w) {
      assert targets[k] in targets;
      var i :| 0 <= i < |visible| && targets[k] == Goal(visible[i].user.obj, rw.computed, sc.user) &&
        !SkipsParent(sc.w, visible[i].user.obj.typ, rw.computed);
      assert visible[i] in visible;
      ParentNoPath(sc, sc.w.relations[(sc.typ, rw.tupleset)], rw.computed, visible[i]);
      NoPathNoProof(sc, targets[k]);
    }
  }

  /** For a rewrite of weight one without exclusion, the rule applies to an object exactly if it is streamed. */
  lemma {:induction false} RuleIffMember(sc: Scope, relation: string, rw: Rewrite, o: Object)
    requires ExclusionFree(sc.w) && NoDifference(rw) && Clean(sc) && WellFormed(sc, rw) && o.typ == sc.typ
    requires InScope(sc, relation, rw) && (sc.typ, relation) in sc.w.relations && WeightOne(sc, relation, rw)
    ensures RewriteRule(sc.w, Lfp(sc.w), Goal(o, relation, sc.user), rw) <==> Member(sc, relation, rw, ObjectString(o))
    decreases sc.rank[relation], 1, rw
  {
    match rw
    case This => DirectRuleIffMember(sc, relation, o);
    case TupleToUserset(_, _) => ParentRuleFails(sc, relation, rw, o);
    case Computed(c) => GoalInLfp(sc, c, o);
    case Union(children) =>
      forall i | 0 <= i < |children| { RuleIffMember(sc, relation, children[i], o); }
    case Intersection(children) =>
      forall i | 0 <= i < |children| { RuleIffMember(sc, relation, children[i], o); }
  }

  /** So the streamed objects are those of the least fixpoint. */
  lemma {:induction false} GoalInLfp(sc: Scope, c: string, o: Object)
    requires ExclusionFree(sc.w) && Clean(sc) && FastReady(sc, c) && o.typ == sc.typ
    ensures Goal(o, c, sc.user) in Lfp(sc.w) <==> Member(sc, c, sc.w.relations[(sc.typ, c)].rewrite, ObjectString(o))
    decreases sc.rank[c] + 1, 0
  {
    var g, child := Goal(o, c, sc.user), sc.w.relations[(sc.typ, c)].rewrite;
    assert (sc.typ, c).1 != "";
    assert PathOf(g) == PathTo(sc, c, sc.typ);
    if sc.w.paths[PathOf(g)] {
      RuleIffMember(sc, c, child, o);
      if g in Lfp(sc.w) { LfpUnfolds(sc.w, g); }
      if Rule(sc.w, Lfp(sc.w), g) { LfpIsClosed(sc.w, g); }
    } else {
      NoLeafNoMember(sc, c, child, o);
      if g in Lfp(sc.w) { LfpUnfolds(sc.w, g); }
    }
  }
}
