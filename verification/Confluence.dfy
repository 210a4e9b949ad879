/** How far the answer of a whole check depends on the order in which sub-checks finish. */
module Confluence {
  import opened Model
  import opened Reducers
  import opened Check
  import opened Soundness
  import opened Fixpoint
  import opened Involves

  /** Pairwise the same kind, and never allowed and flagged. */
  ghost predicate Alike(xs: seq<Outcome>, ys: seq<Outcome>) {
    |xs| == |ys| && forall i :: 0 <= i < |xs| ==> KindOf(xs[i]) == KindOf(ys[i]) && Coherent(xs[i]) && Coherent(ys[i])
  }

  lemma UnionAlike(xs: seq<Outcome>, ys: seq<Outcome>, o: Outcome, p: Outcome)
    requires Alike(xs, ys) && MayUnion(xs, o) && MayUnion(ys, p)
    ensures KindOf(o) == KindOf(p)
  {
    UnionConfluent(xs, o);
    UnionConfluent(ys, p);
    SameKinds(xs, ys);
    SameKinds(ys, xs);
  }

  lemma AlikeUnion(xs: seq<Outcome>, ys: seq<Outcome>, t: seq<Outcome>, t': seq<Outcome>, o: Outcome, p: Outcome)
    requires Alike(xs, ys) && Alike(t, t') && MayUnion(xs + t, o) && MayUnion(ys + t', p)
    ensures KindOf(o) == KindOf(p)
    ensures xs == ys && t == t' ==> o == p
  {
    assert Alike(xs + t, ys + t');
    UnionAlike(xs + t, ys + t', o, p);
    if xs == ys && t == t' { KindConfluent(xs + t, o, p); }
  }

  lemma AlikeLast(fixed: seq<Outcome>, u: Outcome, v: Outcome, o: Outcome, p: Outcome)
    requires Alike(fixed, fixed) && KindOf(u) == KindOf(v) && Coherent(u) && Coherent(v) && MayUnion(fixed + [u], o)
    requires MayUnion(fixed + [v], p)
    ensures KindOf(o) == KindOf(p)
    ensures u == v ==> o == p
  {
    AlikeUnion(fixed, fixed, [u], [v], o, p);
  }

  lemma IntersectionAlike(xs: seq<Outcome>, ys: seq<Outcome>, o: Outcome, p: Outcome)
    requires Alike(xs, ys) && MayIntersect(xs, o) && MayIntersect(ys, p)
    ensures KindOf(o) == KindOf(p)
  {
    IntersectionOrders(xs, o);
    IntersectionOrders(ys, p);
    SameKinds(xs, ys);
    SameKinds(ys, xs);
  }

  lemma SameKinds(xs: seq<Outcome>, ys: seq<Outcome>)
    requires Alike(xs, ys)
    ensures (exists i :: 0 <= i < |xs| && Allows(xs[i])) ==> exists i :: 0 <= i < |ys| && Allows(ys[i])
    ensures (exists i :: 0 <= i < |xs| && Stops(xs[i])) ==> exists i :: 0 <= i < |ys| && Stops(ys[i])
    ensures Err in xs ==> Err in ys
  {
    if Err in xs {
      var i :| 0 <= i < |xs| && xs[i] == Err;
      assert ys[i] == Err;
    }
    forall i | 0 <= i < |xs| ensures (Allows(xs[i]) ==> Allows(ys[i])) && (Stops(xs[i]) ==> Stops(ys[i])) {}
  }

  lemma ExclusionAlike(b: Outcome, b': Outcome, s: Outcome, s': Outcome, o: Outcome, p: Outcome)
    requires Coherent(b) && Coherent(b') && Coherent(s) && KindOf(b) == KindOf(b') && (s == s' || KindOf(b) == No)
    requires MayExclude(b, s, o) && MayExclude(b', s', p)
    ensures KindOf(o) == KindOf(p)
  {
  }

  // ------------------------------------------------------------ where exclusion is harmless

  /**
   * A rewrite without intersection and exclusion that refers to no relation from which either can be
   * reached, be it as a computed relation, on a parent or as an assigned userset.
   */
  ghost predicate OperatorFree(w: World, k: Key, rw: Rewrite) {
    match rw
    case This =>
      k in w.relations ==> forall b :: b in UsersetKeys(w.relations[k].restrictions) ==> !OperatorAhead(w, b, BOTH)
    case Computed(_) => forall b :: RefersTo(w, k.0, rw, b) ==> !OperatorAhead(w, b, BOTH)
    case TupleToUserset(_, _) => forall b :: RefersTo(w, k.0, rw, b) ==> !OperatorAhead(w, b, BOTH)
    case Union(children) => forall i :: 0 <= i < |children| ==> OperatorFree(w, k, children[i])
    case Intersection(_) => false
    case Difference(_, _) => false
  }

  /** What is subtracted in the rewrite is free of operators. */
  ghost predicate SubtractsFree(w: World, k: Key, rw: Rewrite) {
    match rw
    case Union(children) => forall i :: 0 <= i < |children| ==> SubtractsFree(w, k, children[i])
    case Intersection(children) => forall i :: 0 <= i < |children| ==> SubtractsFree(w, k, children[i])
    case Difference(base, subtract) => SubtractsFree(w, k, base) && OperatorFree(w, k, subtract)
    case _ => true
  }

  /** No intersection and no exclusion is reachable from a subtracted operand. */
  ghost predicate FreeSubtracts(w: World) {
    forall k :: k in w.relations ==> SubtractsFree(w, k, w.relations[k].rewrite)
  }

  lemma {:induction false} NothingSubtracted(w: World, k: Key, rw: Rewrite)
    requires NoDifference(rw)
    ensures SubtractsFree(w, k, rw)
  {
    match rw
    case Union(children) =>
      forall i | 0 <= i < |children| ensures SubtractsFree(w, k, children[i]) { NothingSubtracted(w, k, children[i]); }
    case Intersection(children) =>
      forall i | 0 <= i < |children| ensures SubtractsFree(w, k, children[i]) { NothingSubtracted(w, k, children[i]); }
    case _ =>
  }

  lemma {:induction false} FreeOfSubtracts(w: World, k: Key, rw: Rewrite)
    requires OperatorFree(w, k, rw)
    ensures SubtractsFree(w, k, rw)
  {
    match rw
    case Union(children) =>
      forall i | 0 <= i < |children| ensures SubtractsFree(w, k, children[i]) { FreeOfSubtracts(w, k, children[i]); }
    case _ =>
  }

  lemma AheadOfFollower(w: World, a: Key, b: Key)
    requires Follows(w, a, b) && OperatorAhead(w, b, BOTH)
    ensures OperatorAhead(w, a, BOTH)
  {
    var c, op :| Reachable(w, b, c) && c in w.relations && op in BOTH && Contains(w.relations[c].rewrite, op);
    var n: nat :| FollowsIn(w, b, c, n);
    assert FollowsIn(w, a, c, n + 1);
  }

  /** A relation from which no operator can be reached has an operator-free rewrite. */
  lemma NoneAhead(w: World, k: Key)
    requires k in w.relations && !OperatorAhead(w, k, BOTH)
    ensures OperatorFree(w, k, w.relations[k].rewrite)
  {
    assert FollowsIn(w, k, k, 0);
    assert Reachable(w, k, k) && And in BOTH && ButNot in BOTH;
    forall b | Follows(w, k, b) ensures !OperatorAhead(w, b, BOTH) {
      if OperatorAhead(w, b, BOTH) { AheadOfFollower(w, k, b); }
    }
    NoneWithin(w, k, w.relations[k].rewrite);
  }

  lemma {:induction false} NoneWithin(w: World, k: Key, rw: Rewrite)
    requires k in w.relations && !Contains(rw, And) && !Contains(rw, ButNot)
    requires forall b :: b in UsersetKeys(w.relations[k].restrictions) || RefersTo(w, k.0, rw, b) ==>
      !OperatorAhead(w, b, BOTH)
    ensures OperatorFree(w, k, rw)
  {
    match rw
    case Union(children) =>
      forall i | 0 <= i < |children| ensures OperatorFree(w, k, children[i]) { NoneWithin(w, k, children[i]); }
    case _ =>
  }

  // ------------------------------------------------------------ one kind of answer

  /** No cached answers, and no fast path whose failing depends on the order of arrival. */
  ghost predicate Steady(env: Env) {
    env.cached == {} && forall k :: k in env.w.fast ==> !env.w.fast[k].MayFail?
  }

  /** Nothing is subtracted, or the tuples are valid and what is subtracted is free of operators. */
  ghost predicate HarmlessExclusion(w: World) {
    FreeSubtracts(w) && (TypedRows(w) || ExclusionFree(w))
  }

  lemma NoExclusionIsHarmless(w: World)
    requires ExclusionFree(w)
    ensures HarmlessExclusion(w)
  {
    forall k | k in w.relations
      ensures SubtractsFree(w, k, w.relations[k].rewrite)
    {
      NothingSubtracted(w, k, w.relations[k].rewrite);
    }
  }

  /** The goal's relation leads to no operator, over valid tuples, or is not defined. */
  ghost predicate LeadsToNone(w: World, t: Goal) {
    (t.obj.typ, t.relation) !in w.relations || (TypedRows(w) && !OperatorAhead(w, (t.obj.typ, t.relation), BOTH))
  }

  /**
   * If no operator is reachable from a subtracted operand, a request has one kind of answer, whatever
   * the orders of arrival; and the same answer, flag included, if no operator is reachable at all.
   */
  lemma {:induction false} OneKind(env: Env, g: Goal, visited: set<Goal>, depth: nat, o: Outcome, p: Outcome)
    requires HarmlessExclusion(env.w) && Steady(env)
    requires depth <= env.maxDepth && Resolves(env, g, visited, depth, o) && Resolves(env, g, visited, depth, p)
    ensures KindOf(o) == KindOf(p)
    ensures LeadsToNone(env.w, g) ==> o == p
    decreases env.maxDepth - depth, |Unvisited(env.w, g, visited)|, 0
  {
    if depth < env.maxDepth && g !in visited && !SelfDefining(g) && (g.obj.typ, g.relation) in env.w.relations
       && PathOf(g) in env.w.paths && env.w.paths[PathOf(g)] {
      UnvisitedShrinks(env.w, g, visited);
      if LeadsToNone(env.w, g) { NoneAhead(env.w, (g.obj.typ, g.relation)); }
      RewriteOneKind(env, g, visited + {g}, depth, env.w.relations[(g.obj.typ, g.relation)].rewrite, o, p);
    }
  }

  /** Without exclusion, a request has one kind of answer. */
  lemma WithoutExclusion(env: Env, g: Goal, visited: set<Goal>, depth: nat, o: Outcome, p: Outcome)
    requires ExclusionFree(env.w) && Steady(env)
    requires depth <= env.maxDepth && Resolves(env, g, visited, depth, o) && Resolves(env, g, visited, depth, p)
    ensures KindOf(o) == KindOf(p)
  {
    NoExclusionIsHarmless(env.w);
    OneKind(env, g, visited, depth, o, p);
  }

  ghost predicate FreeAt(w: World, g: Goal, rw: Rewrite) {
    TypedRows(w) && OperatorFree(w, (g.obj.typ, g.relation), rw)
  }

  lemma {:induction false} RewriteOneKind(env: Env, g: Goal, visited: set<Goal>, depth: nat, rw: Rewrite, o: Outcome,
                                          p: Outcome)
    requires HarmlessExclusion(env.w) && Steady(env) && SubtractsFree(env.w, (g.obj.typ, g.relation), rw)
    requires TypedRows(env.w) || NoDifference(rw)
    requires depth < env.maxDepth && (g.obj.typ, g.relation) in env.w.relations
    requires Rewrites(env, g, visited, depth, rw, o) && Rewrites(env, g, visited, depth, rw, p)
    ensures KindOf(o) == KindOf(p)
    ensures FreeAt(env.w, g, rw) ==> o == p
    decreases env.maxDepth - depth, |Unvisited(env.w, g, visited)|, 4, rw
  {
    match rw
    case This => DirectlyOneKind(env, g, visited, depth, o, p);
    case Computed(relation) =>
      assert Unvisited(env.w, g.(relation := relation), visited) == Unvisited(env.w, g, visited);
      OneKind(env, g.(relation := relation), visited, depth, o, p);
    case TupleToUserset(tupleset, computed) => ParentsOneKind(env, g, visited, depth, tupleset, computed, o, p);
    case Union(children) =>
      var xs :| MayUnion(xs, o) && Children(env, g, visited, depth, children, xs);
      var ys :| MayUnion(ys, p) && Children(env, g, visited, depth, children, ys);
      ChildrenAlike(env, g, visited, depth, children, xs, ys);
      UnionAlike(xs, ys, o, p);
      if FreeAt(env.w, g, rw) { KindConfluent(xs, o, p); }
    case Intersection(children) =>
      var xs :| MayIntersect(xs, o) && Children(env, g, visited, depth, children, xs);
      var ys :| MayIntersect(ys, p) && Children(env, g, visited, depth, children, ys);
      ChildrenAlike(env, g, visited, depth, children, xs, ys);
      IntersectionAlike(xs, ys, o, p);
    case Difference(base, subtract) => DifferenceOneKind(env, g, visited, depth, base, subtract, o, p);
  }

  /** The outcomes of the operands behind an answer of an exclusion. */
  lemma OperandsOf(env: Env, g: Goal, visited: set<Goal>, depth: nat, base: Rewrite, subtract: Rewrite, o: Outcome)
    returns (b: Outcome, s: Outcome)
    requires depth < env.maxDepth && (g.obj.typ, g.relation) in env.w.relations
    requires Rewrites(env, g, visited, depth, Difference(base, subtract), o)
    ensures Rewrites(env, g, visited, depth, base, b) && Rewrites(env, g, visited, depth, subtract, s)
    ensures MayExclude(b, s, o)
    ensures Coherent(b) && Coherent(s)
  {
    b, s :| Rewrites(env, g, visited, depth, base, b) && Rewrites(env, g, visited, depth, subtract, s) &&
      MayExclude(b, s, o);
    RewritesCoherent(env, g, visited, depth, base, b);
    RewritesCoherent(env, g, visited, depth, subtract, s);
  }

  /** Outcomes of one kind are the same or a denial with and without the flag. */
  lemma SameOrOpposed(s: Outcome, s': Outcome)
    requires Coherent(s) && Coherent(s') && KindOf(s) == KindOf(s')
    ensures s == s' || (s == DENIED && s' == CYCLE) || (s == CYCLE && s' == DENIED)
  {
  }

  lemma {:induction false} DifferenceOneKind(env: Env, g: Goal, visited: set<Goal>, depth: nat, base: Rewrite,
                                             subtract: Rewrite,
                                             o: Outcome, p: Outcome)
    requires HarmlessExclusion(env.w) && Steady(env) && TypedRows(env.w)
    requires SubtractsFree(env.w, (g.obj.typ, g.relation), Difference(base, subtract))
    requires depth < env.maxDepth && (g.obj.typ, g.relation) in env.w.relations
    requires Rewrites(env, g, visited, depth, Difference(base, subtract), o)
    requires Rewrites(env, g, visited, depth, Difference(base, subtract), p)
    ensures KindOf(o) == KindOf(p)
    decreases env.maxDepth - depth, |Unvisited(env.w, g, visited)|, 4, Difference(base, subtract), 0
  {
    var b, s := OperandsOf(env, g, visited, depth, base, subtract, o);
    var b', s' := OperandsOf(env, g, visited, depth, base, subtract, p);
    FreeOfSubtracts(env.w, (g.obj.typ, g.relation), subtract);
    RewriteOneKind(env, g, visited, depth, base, b, b');
    RewriteOneKind(env, g, visited, depth, subtract, s, s');
    ExclusionAlike(b, b', s, s', o, p);
  }

  lemma {:induction false} ChildrenAlike(env: Env, g: Goal, visited: set<Goal>, depth: nat, children: seq<Rewrite>,
                                         xs: seq<Outcome>, ys: seq<Outcome>)
    requires HarmlessExclusion(env.w) && Steady(env)
    requires forall i :: 0 <= i < |children| ==> SubtractsFree(env.w, (g.obj.typ, g.relation), children[i])
    requires TypedRows(env.w) || forall i :: 0 <= i < |children| ==> NoDifference(children[i])
    requires depth < env.maxDepth && (g.obj.typ, g.relation) in env.w.relations
    requires Children(env, g, visited, depth, children, xs) && Children(env, g, visited, depth, children, ys)
    ensures Alike(xs, ys)
    ensures (forall i :: 0 <= i < |children| ==> FreeAt(env.w, g, children[i])) ==> xs == ys
    decreases env.maxDepth - depth, |Unvisited(env.w, g, visited)|, 4, children
  {
    ChildrenCoherent(env, g, visited, depth, children, xs);
    ChildrenCoherent(env, g, visited, depth, children, ys);
    forall i | 0 <= i < |xs|
      ensures KindOf(xs[i]) == KindOf(ys[i]) && (FreeAt(env.w, g, children[i]) ==> xs[i] == ys[i])
    {
      RewriteOneKind(env, g, visited, depth, children[i], xs[i], ys[i]);
    }
  }

  /** The outcome of the handler for userset tuples behind an answer of the direct check. */
  lemma LastHandlerOf(env: Env, g: Goal, visited: set<Goal>, depth: nat, o: Outcome) returns (u: Outcome)
    requires depth < env.maxDepth && (g.obj.typ, g.relation) in env.w.relations && Directly(env, g, visited, depth, o)
    requires HasUsersets(env.w.relations[(g.obj.typ, g.relation)])
    ensures var rel := env.w.relations[(g.obj.typ, g.relation)];
      var rows := UsersetRows(env.w, rel, g);
      && Consults(env, g, This, UsersetTargets(Visible(rows), g.user), EndsInError(rows), visited, depth, u)
      && Coherent(u) && MayUnion(TupleOutcomes(env.w, rel, g) + [u], o)
  {
    var rel := env.w.relations[(g.obj.typ, g.relation)];
    var rows := UsersetRows(env.w, rel, g);
    u :| Consults(env, g, This, UsersetTargets(Visible(rows), g.user), EndsInError(rows), visited, depth, u) &&
      MayUnion(TupleOutcomes(env.w, rel, g) + [u], o);
    ConsultsCoherent(env, g, This, UsersetTargets(Visible(rows), g.user), EndsInError(rows), visited, depth, u);
  }

  lemma TuplesAlike(w: World, rel: Relation, g: Goal)
    ensures Alike(TupleOutcomes(w, rel, g), TupleOutcomes(w, rel, g))
  {
    TupleOutcomesCoherent(w, rel, g);
  }

  /** The outcomes of the sub-checks behind an answer to a dispatch. */
  lemma SubOutcomes(env: Env, targets: seq<Goal>, readFails: bool, visited: set<Goal>, depth: nat, o: Outcome)
    returns (xs: seq<Outcome>)
    requires env.cached == {} && depth < env.maxDepth && Dispatches(env, targets, readFails, visited, depth, o)
    ensures |xs| == |targets| && MayUnion(xs + (if readFails then [Err] else []), o)
    ensures forall i :: 0 <= i < |targets| ==> Resolves(env, targets[i], visited, depth + 1, xs[i]) && Coherent(xs[i])
  {
    var tail := if readFails then [Err] else [];
    xs :| |xs| == |targets| && MayUnion(xs + tail, o) && forall i :: 0 <= i < |targets| ==>
      Dispatched(env, targets[i], visited, depth, xs[i]);
    forall i | 0 <= i < |targets| ensures Resolves(env, targets[i], visited, depth + 1, xs[i]) && Coherent(xs[i]) {
      assert Dispatched(env, targets[i], visited, depth, xs[i]);
      ResolvesCoherent(env, targets[i], visited, depth + 1, xs[i]);
    }
  }

  /** The usersets of an operator-free direct assignment lead to no operator. */
  lemma UsersetsLeadToNone(w: World, g: Goal)
    requires (g.obj.typ, g.relation) in w.relations && FreeAt(w, g, This)
    ensures var rows := UsersetRows(w, w.relations[(g.obj.typ, g.relation)], g);
      forall t :: t in UsersetTargets(Visible(rows), g.user) ==> LeadsToNone(w, t)
  {
    var rel := w.relations[(g.obj.typ, g.relation)];
    var rows := UsersetRows(w, rel, g);
    KeysAdmitted(rel.restrictions);
    forall t | t in UsersetTargets(Visible(rows), g.user) ensures LeadsToNone(w, t) {
      var i :| 0 <= i < |Visible(rows)| && t == Goal(Visible(rows)[i].user.obj, Visible(rows)[i].user.relation, g.user);
      assert Visible(rows)[i] in rows;
      assert (t.obj.typ, t.relation) in UsersetKeys(rel.restrictions);
    }
  }

  /** So do the parents of an operator-free tuple-to-userset. */
  lemma ParentsLeadToNone(w: World, g: Goal, tupleset: string, computed: string)
    requires (g.obj.typ, g.relation) in w.relations && FreeAt(w, g, TupleToUserset(tupleset, computed))
    ensures forall t :: t in ParentTargets(w, Visible(w.Rows(g.obj, tupleset)), computed, g.user) ==>
      LeadsToNone(w, t)
  {
    var rows := w.Rows(g.obj, tupleset);
    forall t | t in ParentTargets(w, Visible(rows), computed, g.user) && (t.obj.typ, t.relation) in w.relations
      ensures LeadsToNone(w, t)
    {
      var i :| 0 <= i < |Visible(rows)| && t == Goal(Visible(rows)[i].user.obj, computed, g.user);
      assert Visible(rows)[i] in rows;
      var j :| 0 <= j < |rows| && rows[j] == Visible(rows)[i];
      assert RowTyped(w.relations[(g.obj.typ, tupleset)], w.Rows(g.obj, tupleset)[j]);
      ParentKeyOf(w, w.relations[(g.obj.typ, tupleset)].restrictions, computed, t.obj.typ);
      assert RefersTo(w, g.obj.typ, TupleToUserset(tupleset, computed), (t.obj.typ, computed));
    }
  }

  lemma {:induction false} ParentKeyOf(w: World, rs: seq<Restriction>, computed: string, typ: string)
    requires (exists r :: r in rs && r.typ == typ) && (typ, computed) in w.relations
    ensures (typ, computed) in ParentKeys(w, rs, computed)
  {
    if rs[0].typ != typ {
      var r :| r in rs && r.typ == typ;
      assert r in rs[1..];
      ParentKeyOf(w, rs[1..], computed, typ);
    }
  }

  lemma {:induction false} DirectlyOneKind(env: Env, g: Goal, visited: set<Goal>, depth: nat, o: Outcome, p: Outcome)
    requires HarmlessExclusion(env.w) && Steady(env) && depth < env.maxDepth
    requires (g.obj.typ, g.relation) in env.w.relations
    requires Directly(env, g, visited, depth, o) && Directly(env, g, visited, depth, p)
    ensures KindOf(o) == KindOf(p)
    ensures FreeAt(env.w, g, This) ==> o == p
    decreases env.maxDepth - depth, 0, 3
  {
    var rel := env.w.relations[(g.obj.typ, g.relation)];
    TuplesAlike(env.w, rel, g);
    if HasUsersets(rel) {
      var u := LastHandlerOf(env, g, visited, depth, o);
      var v := LastHandlerOf(env, g, visited, depth, p);
      HandlersOneKind(env, g, visited, depth, u, v);
      AlikeLast(TupleOutcomes(env.w, rel, g), u, v, o, p);
    } else {
      KindConfluent(TupleOutcomes(env.w, rel, g), o, p);
    }
  }

  lemma {:induction false} HandlersOneKind(env: Env, g: Goal, visited: set<Goal>, depth: nat, u: Outcome, v: Outcome)
    requires HarmlessExclusion(env.w) && Steady(env) && depth < env.maxDepth
    requires (g.obj.typ, g.relation) in env.w.relations
    requires var rows := UsersetRows(env.w, env.w.relations[(g.obj.typ, g.relation)], g);
      var targets := UsersetTargets(Visible(rows), g.user);
      && Consults(env, g, This, targets, EndsInError(rows), visited, depth, u)
      && Consults(env, g, This, targets, EndsInError(rows), visited, depth, v)
    ensures KindOf(u) == KindOf(v)
    ensures FreeAt(env.w, g, This) ==> u == v
    decreases env.maxDepth - depth, 0, 2
  {
    var rows := UsersetRows(env.w, env.w.relations[(g.obj.typ, g.relation)], g);
    if (g, This) !in env.w.fast {
      if FreeAt(env.w, g, This) { UsersetsLeadToNone(env.w, g); }
      DispatchesOneKind(env, UsersetTargets(Visible(rows), g.user), EndsInError(rows), visited, depth, u, v);
    }
  }

  lemma {:induction false} ParentsOneKind(env: Env, g: Goal, visited: set<Goal>, depth: nat, tupleset: string,
                                          computed: string, o: Outcome, p: Outcome)
    requires HarmlessExclusion(env.w) && Steady(env) && depth < env.maxDepth
    requires (g.obj.typ, g.relation) in env.w.relations
    requires Rewrites(env, g, visited, depth, TupleToUserset(tupleset, computed), o)
    requires Rewrites(env, g, visited, depth, TupleToUserset(tupleset, computed), p)
    ensures KindOf(o) == KindOf(p)
    ensures FreeAt(env.w, g, TupleToUserset(tupleset, computed)) ==> o == p
    decreases env.maxDepth - depth, 0, 2
  {
    var rows := env.w.Rows(g.obj, tupleset);
    if (g, TupleToUserset(tupleset, computed)) !in env.w.fast {
      if FreeAt(env.w, g, TupleToUserset(tupleset, computed)) { ParentsLeadToNone(env.w, g, tupleset, computed); }
      DispatchesOneKind(env, ParentTargets(env.w, Visible(rows), computed, g.user), EndsInError(rows), visited, depth,
        o, p);
    }
  }

  lemma {:induction false} DispatchesOneKind(env: Env, targets: seq<Goal>, readFails: bool, visited: set<Goal>,
                                             depth: nat, o: Outcome, p: Outcome)
    requires HarmlessExclusion(env.w) && Steady(env) && depth < env.maxDepth
    requires Dispatches(env, targets, readFails, visited, depth, o)
    requires Dispatches(env, targets, readFails, visited, depth, p)
    ensures KindOf(o) == KindOf(p)
    ensures (forall t :: t in targets ==> LeadsToNone(env.w, t)) ==> o == p
    decreases env.maxDepth - depth, 0, 1
  {
    var tail := if readFails then [Err] else [];
    var xs := SubOutcomes(env, targets, readFails, visited, depth, o);
    var ys := SubOutcomes(env, targets, readFails, visited, depth, p);
    SubsOneKind(env, targets, visited, depth, xs, ys);
    AlikeUnion(xs, ys, tail, tail, o, p);
  }

  lemma {:induction false} SubsOneKind(env: Env, targets: seq<Goal>, visited: set<Goal>, depth: nat, xs: seq<Outcome>,
                                       ys: seq<Outcome>)
    requires HarmlessExclusion(env.w) && Steady(env) && depth < env.maxDepth && |xs| == |ys| == |targets|
    requires forall i :: 0 <= i < |targets| ==> Resolves(env, targets[i], visited, depth + 1, xs[i]) && Coherent(xs[i])
    requires forall i :: 0 <= i < |targets| ==> Resolves(env, targets[i], visited, depth + 1, ys[i]) && Coherent(ys[i])
    ensures Alike(xs, ys)
    ensures (forall t :: t in targets ==> LeadsToNone(env.w, t)) ==> xs == ys
    decreases env.maxDepth - depth, 0, 0
  {
    forall i | 0 <= i < |xs|
      ensures KindOf(xs[i]) == KindOf(ys[i]) && (LeadsToNone(env.w, targets[i]) ==> xs[i] == ys[i])
    {
      OneKind(env, targets[i], visited, depth + 1, xs[i], ys[i]);
    }
  }

  // ------------------------------------------------------------ when exclusion at a node is harmless

  ghost predicate MayAnswer(env: Env, g: Goal, visited: set<Goal>, depth: nat, rw: Rewrite, o: Outcome)
    requires depth < env.maxDepth && (g.obj.typ, g.relation) in env.w.relations
  {
    Rewrites(env, g, visited, depth, rw, o)
  }

  ghost predicate IsOneKind(env: Env, g: Goal, visited: set<Goal>, depth: nat, rw: Rewrite)
    requires depth < env.maxDepth && (g.obj.typ, g.relation) in env.w.relations
  {
    forall o, p :: MayAnswer(env, g, visited, depth, rw, o) && MayAnswer(env, g, visited, depth, rw, p) ==>
      KindOf(o) == KindOf(p)
  }

  /** The subtracted operand may be denied with and without the flag, and the base need not be denied. */
  ghost predicate FlagDecides(env: Env, g: Goal, visited: set<Goal>, depth: nat, base: Rewrite, subtract: Rewrite)
    requires depth < env.maxDepth && (g.obj.typ, g.relation) in env.w.relations
  {
    && MayAnswer(env, g, visited, depth, subtract, DENIED)
    && MayAnswer(env, g, visited, depth, subtract, CYCLE)
    && exists b :: MayAnswer(env, g, visited, depth, base, b) && KindOf(b) != No
  }

  /** An exclusion of operands of one kind is itself of one kind unless the flag of its subtracted operand decides. */
  lemma ExclusionOneKind(env: Env, g: Goal, visited: set<Goal>, depth: nat, base: Rewrite, subtract: Rewrite)
    requires depth < env.maxDepth && (g.obj.typ, g.relation) in env.w.relations
    requires IsOneKind(env, g, visited, depth, base) && IsOneKind(env, g, visited, depth, subtract)
    ensures IsOneKind(env, g, visited, depth, Difference(base, subtract)) <==>
      !FlagDecides(env, g, visited, depth, base, subtract)
  {
    var rw := Difference(base, subtract);
    if FlagDecides(env, g, visited, depth, base, subtract) {
      var b := TwoKinds(env, g, visited, depth, base, subtract);
      assert MayAnswer(env, g, visited, depth, rw, b) && MayAnswer(env, g, visited, depth, rw, CYCLE);
    } else {
      forall o, p | MayAnswer(env, g, visited, depth, rw, o) && MayAnswer(env, g, visited, depth, rw, p)
        ensures KindOf(o) == KindOf(p)
      {
        FlagDoesNotDecide(env, g, visited, depth, base, subtract, o, p);
      }
    }
  }

  lemma TwoKinds(env: Env, g: Goal, visited: set<Goal>, depth: nat, base: Rewrite, subtract: Rewrite)
    returns (b: Outcome)
    requires depth < env.maxDepth && (g.obj.typ, g.relation) in env.w.relations
    requires FlagDecides(env, g, visited, depth, base, subtract)
    ensures KindOf(b) != No && Rewrites(env, g, visited, depth, Difference(base, subtract), b)
    ensures Rewrites(env, g, visited, depth, Difference(base, subtract), CYCLE)
  {
    b :| MayAnswer(env, g, visited, depth, base, b) && KindOf(b) != No;
    RewritesCoherent(env, g, visited, depth, base, b);
    assert ExclusionOf(true, b, DENIED, b) && ExclusionOf(true, b, CYCLE, CYCLE);
    Excludes(env, g, visited, depth, base, subtract, b, DENIED, b);
    Excludes(env, g, visited, depth, base, subtract, b, CYCLE, CYCLE);
  }

  lemma FlagDoesNotDecide(env: Env, g: Goal, visited: set<Goal>, depth: nat, base: Rewrite, subtract: Rewrite,
                          o: Outcome, p: Outcome)
    requires depth < env.maxDepth && (g.obj.typ, g.relation) in env.w.relations
    requires IsOneKind(env, g, visited, depth, base) && IsOneKind(env, g, visited, depth, subtract)
    requires !FlagDecides(env, g, visited, depth, base, subtract)
    requires Rewrites(env, g, visited, depth, Difference(base, subtract), o)
    requires Rewrites(env, g, visited, depth, Difference(base, subtract), p)
    ensures KindOf(o) == KindOf(p)
  {
    var b, s := OperandsOf(env, g, visited, depth, base, subtract, o);
    var b', s' := OperandsOf(env, g, visited, depth, base, subtract, p);
    assert MayAnswer(env, g, visited, depth, base, b) && MayAnswer(env, g, visited, depth, base, b');
    assert MayAnswer(env, g, visited, depth, subtract, s) && MayAnswer(env, g, visited, depth, subtract, s');
    SameOrOpposed(s, s');
    ExclusionAlike(b, b', s, s', o, p);
  }

  // ------------------------------------------------------------ a request whose answer the order decides

  /** Which of two stopping outcomes an intersection returns decides an exclusion above it. */
  lemma ExclusionFollowsOrder(env: Env, g: Goal, visited: set<Goal>, depth: nat, base: Rewrite, a: Rewrite, b: Rewrite)
    requires depth < env.maxDepth && (g.obj.typ, g.relation) in env.w.relations
    requires Rewrites(env, g, visited, depth, base, ALLOWED) && Rewrites(env, g, visited, depth, a, DENIED)
    requires Rewrites(env, g, visited, depth, b, CYCLE)
    ensures Rewrites(env, g, visited, depth, Difference(base, Intersection([a, b])), ALLOWED)
    ensures Rewrites(env, g, visited, depth, Difference(base, Intersection([a, b])), CYCLE)
  {
    BothOutcomes(env, g, visited, depth, a, b);
    assert ExclusionOf(true, ALLOWED, DENIED, ALLOWED) && ExclusionOf(true, ALLOWED, CYCLE, CYCLE);
    assert MayExclude(ALLOWED, DENIED, ALLOWED) && MayExclude(ALLOWED, CYCLE, CYCLE);
    Excludes(env, g, visited, depth, base, Intersection([a, b]), ALLOWED, DENIED, ALLOWED);
    Excludes(env, g, visited, depth, base, Intersection([a, b]), ALLOWED, CYCLE, CYCLE);
  }

  lemma BothOutcomes(env: Env, g: Goal, visited: set<Goal>, depth: nat, a: Rewrite, b: Rewrite)
    requires depth < env.maxDepth && (g.obj.typ, g.relation) in env.w.relations
    requires Rewrites(env, g, visited, depth, a, DENIED) && Rewrites(env, g, visited, depth, b, CYCLE)
    ensures Rewrites(env, g, visited, depth, Intersection([a, b]), DENIED)
    ensures Rewrites(env, g, visited, depth, Intersection([a, b]), CYCLE)
  {
    var outs := [DENIED, CYCLE];
    EitherStops(outs);
    TwoChildren(env, g, visited, depth, a, b, outs);
    Intersects(env, g, visited, depth, [a, b], outs, DENIED);
    Intersects(env, g, visited, depth, [a, b], outs, CYCLE);
  }

  lemma EitherStops(outs: seq<Outcome>)
    requires outs == [DENIED, CYCLE]
    ensures MayIntersect(outs, DENIED) && MayIntersect(outs, CYCLE)
  {
    assert outs[0] == DENIED && outs[1] == CYCLE;
    IntersectionOrders(outs, DENIED);
    IntersectionOrders(outs, CYCLE);
  }

  lemma TwoChildren(env: Env, g: Goal, visited: set<Goal>, depth: nat, a: Rewrite, b: Rewrite, outs: seq<Outcome>)
    requires depth < env.maxDepth && (g.obj.typ, g.relation) in env.w.relations && |outs| == 2
    requires Rewrites(env, g, visited, depth, a, outs[0]) && Rewrites(env, g, visited, depth, b, outs[1])
    ensures Children(env, g, visited, depth, [a, b], outs)
  {
  }

  lemma Intersects(env: Env, g: Goal, visited: set<Goal>, depth: nat, children: seq<Rewrite>, outs: seq<Outcome>,
                   o: Outcome)
    requires depth < env.maxDepth && (g.obj.typ, g.relation) in env.w.relations
    requires Children(env, g, visited, depth, children, outs) && MayIntersect(outs, o)
    ensures Rewrites(env, g, visited, depth, Intersection(children), o)
  {
  }

  lemma Excludes(env: Env, g: Goal, visited: set<Goal>, depth: nat, base: Rewrite, subtract: Rewrite, b: Outcome,
                 s: Outcome, o: Outcome)
    requires depth < env.maxDepth && (g.obj.typ, g.relation) in env.w.relations && MayExclude(b, s, o)
    requires Rewrites(env, g, visited, depth, base, b) && Rewrites(env, g, visited, depth, subtract, s)
    ensures Rewrites(env, g, visited, depth, Difference(base, subtract), o)
  {
  }

  const ANNE: User := User(Object("user", "anne"), "")
  const DOC: Object := Object("doc", "1")
  const GROUP: Object := Object("group", "1")
  const TEAM: Object := Object("team", "1")
  const MEMBERS: User := User(GROUP, "member")
  const TEAM_MEMBERS: User := User(TEAM, "member")

  /**
   * `viewer: [user] but not (a and b)`, where `b` is assigned to the members of a group, which are
   * the members of a team, which are the members of the group. No fast path is chosen for a cycle through
   * two types: it has no finite weight, and no relation refers to itself.
   */
  const MUTUAL_GROUPS: World := World(
    {"user", "doc", "group", "team"},
    map[("doc", "viewer") := Relation(Difference(This, Intersection([Computed("a"), Computed("b")])), [Direct("user")]),
        ("doc", "a") := Relation(This, [Direct("user")]),
        ("doc", "b") := Relation(This, [Userset("group", "member")]),
        ("group", "member") := Relation(This, [Direct("user"), Userset("team", "member")]),
        ("team", "member") := Relation(This, [Direct("user"), Userset("group", "member")])],
    map[(DOC, "viewer") := [Row(ANNE, Met)], (DOC, "b") := [Row(MEMBERS, Met)],
        (GROUP, "member") := [Row(TEAM_MEMBERS, Met)], (TEAM, "member") := [Row(MEMBERS, Met)]],
    map[PathKey("user", "", "viewer", "doc") := true, PathKey("user", "", "a", "doc") := true,
        PathKey("user", "", "b", "doc") := true, PathKey("user", "", "member", "group") := true,
        PathKey("user", "", "member", "team") := true],
    imap[])

  /** Direct tuples decide where no usersets are assigned. */
  lemma DirectOnly(env: Env, g: Goal, visited: set<Goal>, depth: nat, o: Outcome)
    requires depth < env.maxDepth && (g.obj.typ, g.relation) in env.w.relations
    requires env.w.relations[(g.obj.typ, g.relation)].restrictions == [Direct("user")]
    requires g.user == ANNE && o == DirectOutcome(env.w, g)
    ensures Directly(env, g, visited, depth, o)
  {
    var rel := env.w.relations[(g.obj.typ, g.relation)];
    assert rel.restrictions[0] == Direct("user");
    assert TupleOutcomes(env.w, rel, g) == [o];
    UnionConfluent([o], o);
    assert [o][0] == o;
  }

  /** If the only tuple assigns a userset whose check meets a cycle, the direct check is flagged. */
  lemma OnlyUserset(env: Env, g: Goal, visited: set<Goal>, depth: nat, u: User)
    requires depth < env.maxDepth && (g.obj.typ, g.relation) in env.w.relations
    requires env.w.Rows(g.obj, g.relation) == [Row(u, Met)]
    requires (g, This) !in env.w.fast
    requires u.relation != "" && g.user.relation == ""
    requires Userset(u.obj.typ, u.relation) in env.w.relations[(g.obj.typ, g.relation)].restrictions
    requires Resolves(env, Goal(u.obj, u.relation, g.user), visited, depth + 1, CYCLE)
    ensures Directly(env, g, visited, depth, CYCLE)
  {
    var rel := env.w.relations[(g.obj.typ, g.relation)];
    var rows := UsersetRows(env.w, rel, g);
    OnlyRow(env.w, rel, g, Row(u, Met));
    AllFlagged(env, UsersetTargets(Visible(rows), g.user), visited, depth);
    LastFlagged(TupleOutcomes(env.w, rel, g));
  }

  lemma AllFlagged(env: Env, targets: seq<Goal>, visited: set<Goal>, depth: nat)
    requires depth < env.maxDepth && targets != [] && forall i :: 0 <= i < |targets| ==>
      Resolves(env, targets[i], visited, depth + 1, CYCLE)
    ensures Dispatches(env, targets, false, visited, depth, CYCLE)
  {
    var outs := seq(|targets|, i => CYCLE);
    assert outs[0] == CYCLE;
    UnionConfluent(outs, CYCLE);
    assert outs + [] == outs;
    forall i | 0 <= i < |targets| ensures Dispatched(env, targets[i], visited, depth, outs[i]) {}
  }

  lemma LastFlagged(fixed: seq<Outcome>)
    requires forall i :: 0 <= i < |fixed| ==> fixed[i] == DENIED
    ensures MayUnion(fixed + [CYCLE], CYCLE)
  {
    var all := fixed + [CYCLE];
    assert all[|fixed|] == CYCLE;
    UnionConfluent(all, CYCLE);
  }

  /** A directly assigned relation resolves to what the direct check answers. */
  lemma ResolvesDirectly(env: Env, g: Goal, visited: set<Goal>, depth: nat, o: Outcome)
    requires depth < env.maxDepth && g !in visited && !SelfDefining(g) && (g.obj.typ, g.relation) in env.w.relations
    requires PathOf(g) in env.w.paths && env.w.paths[PathOf(g)]
    requires env.w.relations[(g.obj.typ, g.relation)].rewrite == This
    requires Directly(env, g, visited + {g}, depth, o)
    ensures Resolves(env, g, visited, depth, o)
  {
    UnvisitedShrinks(env.w, g, visited);
  }

  lemma OnlyRow(w: World, rel: Relation, g: Goal, row: Row)
    requires w.Rows(g.obj, g.relation) == [row] && row.cond.Met? && row.user.relation != "" && g.user.relation == ""
    requires Userset(row.user.obj.typ, row.user.relation) in rel.restrictions
    ensures var rows := UsersetRows(w, rel, g);
      Visible(rows) != [] && !EndsInError(rows) && forall i :: 0 <= i < |Visible(rows)| ==> Visible(rows)[i] == row
    ensures HasUsersets(rel) && forall i :: 0 <= i < |TupleOutcomes(w, rel, g)| ==>
      TupleOutcomes(w, rel, g)[i] == DENIED
  {
    var rows := UsersetRows(w, rel, g);
    assert forall x :: x in w.Rows(g.obj, g.relation) <==> x == row;
    assert row in rows && row in Visible(rows);
    forall i | 0 <= i < |Visible(rows)| ensures Visible(rows)[i] == row { assert Visible(rows)[i] in rows; }
    NoneSelected(w, g, row);
    var k :| 0 <= k < |rel.restrictions| && rel.restrictions[k] == Userset(row.user.obj.typ, row.user.relation);
  }

  /** The goal's relation is defined as `rel`, the user has a path to it, and these are the tuples. */
  ghost predicate Defines(w: World, g: Goal, rel: Relation, rows: seq<Row>) {
    && (g.obj.typ, g.relation) in w.relations && w.relations[(g.obj.typ, g.relation)] == rel &&
         w.Rows(g.obj, g.relation) == rows
    && PathOf(g) in w.paths && w.paths[PathOf(g)]
  }

  const VIEWER_GOAL: Goal := Goal(DOC, "viewer", ANNE)

  const VIEWER: Relation := Relation(Difference(This, Intersection([Computed("a"), Computed("b")])), [Direct("user")])

  /** The relations and tuples of the world above, one goal at a time. */
  ghost predicate Mutual(w: World) {
    && w.fast == imap[]
    && Defines(w, VIEWER_GOAL, VIEWER, [Row(ANNE, Met)])
    && Defines(w, Goal(DOC, "a", ANNE), Relation(This, [Direct("user")]), [])
    && Defines(w, Goal(DOC, "b", ANNE), Relation(This, [Userset("group", "member")]), [Row(MEMBERS, Met)])
    && Defines(w, Goal(GROUP, "member", ANNE), Relation(This, [Direct("user"), Userset("team", "member")]),
         [Row(TEAM_MEMBERS, Met)])
    && Defines(w, Goal(TEAM, "member", ANNE), Relation(This, [Direct("user"), Userset("group", "member")]),
         [Row(MEMBERS, Met)])
  }

  /**
   * Below an exclusion of an intersection the same request may be allowed or denied, depending on the order
   * of arrival.
   */
  lemma OrderDecidesExclusion(maxDepth: nat)
    requires maxDepth > 3
    ensures var env := Env(MUTUAL_GROUPS, maxDepth, {});
      Resolves(env, VIEWER_GOAL, {}, 0, ALLOWED) && Resolves(env, VIEWER_GOAL, {}, 0, CYCLE)
  {
    var env := Env(MUTUAL_GROUPS, maxDepth, {});
    assert Mutual(env.w);
    BranchA(env);
    BranchB(env);
    ViewerDirect(env);
    ViewerResolves(env);
  }

  lemma ViewerDirect(env: Env)
    requires env.maxDepth > 3 && Mutual(env.w)
    ensures Rewrites(env, VIEWER_GOAL, {VIEWER_GOAL}, 0, This, ALLOWED)
  {
    AssignedDirectly(env.w, VIEWER_GOAL);
    DirectOnly(env, VIEWER_GOAL, {VIEWER_GOAL}, 0, ALLOWED);
  }

  lemma ViewerResolves(env: Env)
    requires env.maxDepth > 3 && Mutual(env.w)
    requires Rewrites(env, VIEWER_GOAL, {VIEWER_GOAL}, 0, This, ALLOWED)
    requires Resolves(env, Goal(DOC, "a", ANNE), {VIEWER_GOAL}, 0, DENIED)
    requires Resolves(env, Goal(DOC, "b", ANNE), {VIEWER_GOAL}, 0, CYCLE)
    ensures Resolves(env, VIEWER_GOAL, {}, 0, ALLOWED) && Resolves(env, VIEWER_GOAL, {}, 0, CYCLE)
  {
    var g := VIEWER_GOAL;
    assert {} + {g} == {g};
    assert g.(relation := "a") == Goal(DOC, "a", ANNE) && g.(relation := "b") == Goal(DOC, "b", ANNE);
    assert Rewrites(env, g, {g}, 0, Computed("a"), DENIED) && Rewrites(env, g, {g}, 0, Computed("b"), CYCLE);
    ExclusionFollowsOrder(env, g, {g}, 0, This, Computed("a"), Computed("b"));
  }

  lemma AssignedDirectly(w: World, g: Goal)
    requires w.Rows(g.obj, g.relation) == [Row(g.user, Met)]
    ensures DirectOutcome(w, g) == ALLOWED
  {
    var rows := DirectRows(w, g);
    assert forall x :: x in w.Rows(g.obj, g.relation) <==> x == Row(g.user, Met);
    assert Row(g.user, Met) in rows && rows[0] in rows;
  }

  lemma BranchA(env: Env)
    requires env.maxDepth > 3 && Mutual(env.w)
    ensures Resolves(env, Goal(DOC, "a", ANNE), {VIEWER_GOAL}, 0, DENIED)
  {
    var a := Goal(DOC, "a", ANNE);
    NothingAssigned(env.w, a);
    DirectOnly(env, a, {VIEWER_GOAL} + {a}, 0, DENIED);
    ResolvesDirectly(env, a, {VIEWER_GOAL}, 0, DENIED);
  }

  lemma NothingAssigned(w: World, g: Goal)
    requires w.Rows(g.obj, g.relation) == []
    ensures DirectOutcome(w, g) == DENIED
  {
  }

  lemma BranchB(env: Env)
    requires env.maxDepth > 3 && Mutual(env.w)
    ensures Resolves(env, Goal(DOC, "b", ANNE), {VIEWER_GOAL}, 0, CYCLE)
  {
    var b := Goal(DOC, "b", ANNE);
    GroupMember(env, {VIEWER_GOAL} + {b});
    assert env.w.relations[("doc", "b")].restrictions[0] == Userset("group", "member");
    OnlyUserset(env, b, {VIEWER_GOAL} + {b}, 0, MEMBERS);
    ResolvesDirectly(env, b, {VIEWER_GOAL}, 0, CYCLE);
  }

  lemma GroupMember(env: Env, visited: set<Goal>)
    requires env.maxDepth > 3 && Mutual(env.w) && Goal(GROUP, "member", ANNE) !in visited
    requires Goal(TEAM, "member", ANNE) !in visited
    ensures Resolves(env, Goal(GROUP, "member", ANNE), visited, 1, CYCLE)
  {
    var m := Goal(GROUP, "member", ANNE);
    TeamMember(env, visited + {m});
    assert env.w.relations[("group", "member")].restrictions[1] == Userset("team", "member");
    OnlyUserset(env, m, visited + {m}, 1, TEAM_MEMBERS);
    ResolvesDirectly(env, m, visited, 1, CYCLE);
  }

  lemma TeamMember(env: Env, visited: set<Goal>)
    requires env.maxDepth > 3 && Mutual(env.w) && Goal(GROUP, "member", ANNE) in visited
    requires Goal(TEAM, "member", ANNE) !in visited
    ensures Resolves(env, Goal(TEAM, "member", ANNE), visited, 2, CYCLE)
  {
    var m := Goal(TEAM, "member", ANNE);
    assert Resolves(env, Goal(GROUP, "member", ANNE), visited + {m}, 3, CYCLE);
    assert env.w.relations[("team", "member")].restrictions[1] == Userset("group", "member");
    OnlyUserset(env, m, visited + {m}, 2, MEMBERS);
    ResolvesDirectly(env, m, visited, 2, CYCLE);
  }
}
