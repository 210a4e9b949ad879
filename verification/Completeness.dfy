/**
 * A check answers whatever can be derived within its depth limit, and flags its answer only if some goal it
 * asks about lies on the path or asks about itself.
 */
module Completeness {
  import opened Model
  import opened Reducers
  import opened Check
  import opened Soundness
  import opened Termination

  // ------------------------------------------------------------ which goals a goal asks about

  /** A met tuple assigns the userset that `h` asks about, and the relation admits such usersets. */
  ghost predicate UsersetAsks(w: World, g: Goal, h: Goal)
    requires (g.obj.typ, g.relation) in w.relations
  {
    exists row :: row in w.Rows(g.obj, g.relation) && row.cond == Met && row.user.relation != "" &&
      Userset(row.user.obj.typ, row.user.relation) in w.relations[(g.obj.typ, g.relation)].restrictions &&
      h == Goal(row.user.obj, row.user.relation, g.user)
  }

  /** A met tuple of the tupleset names the parent that `h` asks about, unless its type is known not to define it. */
  ghost predicate ParentAsks(w: World, g: Goal, tupleset: string, computed: string, h: Goal) {
    exists row :: row in w.Rows(g.obj, tupleset) && row.cond == Met && h == Goal(row.user.obj, computed, g.user) &&
      (row.user.obj.typ in w.types ==> (row.user.obj.typ, computed) in w.relations)
  }

  /** The rewrite of `g` has a leaf or a computed relation that asks about `h`; fast paths ask about nothing. */
  ghost predicate RewriteAsks(w: World, g: Goal, rw: Rewrite, h: Goal)
    requires (g.obj.typ, g.relation) in w.relations
  {
    match rw
    case This => (g, rw) !in w.fast && UsersetAsks(w, g, h)
    case Computed(relation) => h == g.(relation := relation)
    case TupleToUserset(tupleset, computed) => (g, rw) !in w.fast && ParentAsks(w, g, tupleset, computed, h)
    case Union(children) => exists i :: 0 <= i < |children| && RewriteAsks(w, g, children[i], h)
    case Intersection(children) => exists i :: 0 <= i < |children| && RewriteAsks(w, g, children[i], h)
    case Difference(base, subtract) => RewriteAsks(w, g, base, h) || RewriteAsks(w, g, subtract, h)
  }

  /** A goal that needs its rewrite asks about what the rewrite asks about; any other goal asks about nothing. */
  ghost predicate Asks(w: World, g: Goal, h: Goal) {
    && !(g.user.obj == g.obj && g.user.relation == g.relation)
    && (g.obj.typ, g.relation) in w.relations
    && (PathOf(g) in w.paths && w.paths[PathOf(g)])
    && RewriteAsks(w, g, w.relations[(g.obj.typ, g.relation)].rewrite, h)
  }

  ghost predicate AsksIn(w: World, g: Goal, h: Goal, n: nat)
    decreases n
  {
    if n == 0 then g == h else exists c :: Asks(w, g, c) && AsksIn(w, c, h, n - 1)
  }

  /** `h` is `g`, or is asked about below `g`. */
  ghost predicate Below(w: World, g: Goal, h: Goal) {
    exists n: nat :: AsksIn(w, g, h, n)
  }

  ghost predicate AsksItself(w: World, h: Goal) {
    exists c :: Asks(w, h, c) && Below(w, c, h)
  }

  /** Nothing at or below `g` is on the path or asks about itself. */
  ghost predicate Clear(w: World, g: Goal, visited: set<Goal>) {
    forall h :: Below(w, g, h) ==> h !in visited && !AsksItself(w, h)
  }

  lemma BelowSelf(w: World, g: Goal)
    ensures Below(w, g, g)
  {
    assert AsksIn(w, g, g, 0);
  }

  lemma BelowAsked(w: World, g: Goal, c: Goal, h: Goal)
    requires Asks(w, g, c) && Below(w, c, h)
    ensures Below(w, g, h)
  {
    var n: nat :| AsksIn(w, c, h, n);
    assert AsksIn(w, g, h, n + 1);
  }

  lemma ClearSelf(w: World, g: Goal, visited: set<Goal>)
    requires Clear(w, g, visited)
    ensures g !in visited
  {
    BelowSelf(w, g);
  }

  /** Asking keeps the path clear. */
  lemma ClearAsked(w: World, g: Goal, c: Goal, visited: set<Goal>)
    requires Clear(w, g, visited) && Asks(w, g, c)
    ensures Clear(w, c, visited + {g})
  {
    forall h | Below(w, c, h) ensures h !in visited + {g} && !AsksItself(w, h) {
      BelowAsked(w, g, c, h);
      BelowSelf(w, g);
    }
  }

  /** Whatever the rewrite asks about is clear. */
  ghost predicate AllClear(w: World, g: Goal, rw: Rewrite, visited: set<Goal>)
    requires (g.obj.typ, g.relation) in w.relations
  {
    forall h :: RewriteAsks(w, g, rw, h) ==> Clear(w, h, visited)
  }

  lemma RewriteClear(w: World, g: Goal, visited: set<Goal>)
    requires Clear(w, g, visited) && !SelfDefining(g) && (g.obj.typ, g.relation) in w.relations
    requires PathOf(g) in w.paths && w.paths[PathOf(g)]
    ensures AllClear(w, g, w.relations[(g.obj.typ, g.relation)].rewrite, visited + {g})
  {
    forall h | RewriteAsks(w, g, w.relations[(g.obj.typ, g.relation)].rewrite, h)
      ensures Clear(w, h, visited + {g})
    {
      ClearAsked(w, g, h, visited);
    }
  }

  /** What a leaf may have to dispatch is clear. */
  ghost predicate TargetsClear(w: World, g: Goal, leaf: Rewrite, targets: seq<Goal>, visited: set<Goal>) {
    (g, leaf) in w.fast || forall i :: 0 <= i < |targets| ==> Clear(w, targets[i], visited)
  }

  /** The targets of a leaf without a fast path are asked about. */
  lemma UsersetsAsked(w: World, g: Goal, visited: set<Goal>)
    requires (g.obj.typ, g.relation) in w.relations && AllClear(w, g, This, visited)
    ensures var rows := UsersetRows(w, w.relations[(g.obj.typ, g.relation)], g);
      TargetsClear(w, g, This, UsersetTargets(Visible(rows), g.user), visited)
  {
    var visible := Visible(UsersetRows(w, w.relations[(g.obj.typ, g.relation)], g));
    var targets := UsersetTargets(visible, g.user);
    forall i | 0 <= i < |targets| && (g, This) !in w.fast ensures Clear(w, targets[i], visited) {
      assert visible[i] in visible && visible[i] in w.Rows(g.obj, g.relation);
      assert RewriteAsks(w, g, This, targets[i]);
    }
  }

  lemma ParentsAsked(w: World, g: Goal, leaf: Rewrite, visited: set<Goal>)
    requires (g.obj.typ, g.relation) in w.relations && leaf.TupleToUserset? && AllClear(w, g, leaf, visited)
    ensures var rows := w.Rows(g.obj, leaf.tupleset);
      TargetsClear(w, g, leaf, ParentTargets(w, Visible(rows), leaf.computed, g.user), visited)
  {
    var visible := Visible(w.Rows(g.obj, leaf.tupleset));
    var targets := ParentTargets(w, visible, leaf.computed, g.user);
    forall i | 0 <= i < |targets| && (g, leaf) !in w.fast ensures Clear(w, targets[i], visited) {
      assert targets[i] in targets;
      var j :| 0 <= j < |visible| && targets[i] == Goal(visible[j].user.obj, leaf.computed, g.user) &&
        !SkipsParent(w, visible[j].user.obj.typ, leaf.computed);
      assert visible[j] in visible;
      assert RewriteAsks(w, g, leaf, targets[i]);
    }
  }

  // ------------------------------------------------------------ a flag has a cause

  /**
   * An answer is flagged only if some goal at or below the request is on the path or asks about itself: on a
   * clear path no answer is flagged, whatever the order of arrival, the cache and the fast paths.
   */
  lemma {:induction false} ResolvesUnflagged(env: Env, g: Goal, visited: set<Goal>, depth: nat, o: Outcome)
    requires depth <= env.maxDepth && Resolves(env, g, visited, depth, o) && Clear(env.w, g, visited)
    ensures !Flagged(o)
    decreases env.maxDepth - depth, |Unvisited(env.w, g, visited)|, 0
  {
    ClearSelf(env.w, g, visited);
    if depth < env.maxDepth && !SelfDefining(g) && (g.obj.typ, g.relation) in env.w.relations
       && PathOf(g) in env.w.paths && env.w.paths[PathOf(g)] {
      UnvisitedShrinks(env.w, g, visited);
      RewriteClear(env.w, g, visited);
      RewritesUnflagged(env, g, visited + {g}, depth, env.w.relations[(g.obj.typ, g.relation)].rewrite, o);
    }
  }

  lemma {:induction false} RewritesUnflagged(env: Env, g: Goal, visited: set<Goal>, depth: nat, rw: Rewrite,
                                             o: Outcome)
    requires depth < env.maxDepth && (g.obj.typ, g.relation) in env.w.relations
    requires Rewrites(env, g, visited, depth, rw, o) && AllClear(env.w, g, rw, visited)
    ensures !Flagged(o)
    decreases env.maxDepth - depth, |Unvisited(env.w, g, visited)|, 4, rw
  {
    match rw
    case This => DirectlyUnflagged(env, g, visited, depth, o);
    case Computed(relation) =>
      var child := g.(relation := relation);
      assert Unvisited(env.w, child, visited) == Unvisited(env.w, g, visited);
      assert RewriteAsks(env.w, g, rw, child);
      ResolvesUnflagged(env, child, visited, depth, o);
    case TupleToUserset(tupleset, computed) =>
      var rows := env.w.Rows(g.obj, tupleset);
      ParentsAsked(env.w, g, rw, visited);
      ConsultsUnflagged(env, g, rw, ParentTargets(env.w, Visible(rows), computed, g.user), EndsInError(rows), visited,
        depth, o);
    case Union(children) =>
      var outs :| MayUnion(outs, o) && Children(env, g, visited, depth, children, outs);
      ChildrenUnflagged(env, g, visited, depth, rw, outs);
      UnionUnflagged(outs, o);
    case Intersection(children) =>
      var outs :| MayIntersect(outs, o) && Children(env, g, visited, depth, children, outs);
      ChildrenUnflagged(env, g, visited, depth, rw, outs);
      IntersectionUnflagged(outs, o);
    case Difference(base, subtract) =>
      var b, s :| Rewrites(env, g, visited, depth, base, b) && Rewrites(env, g, visited, depth, subtract, s) &&
        MayExclude(b, s, o);
      OperandsClear(env.w, g, rw, visited);
      RewritesUnflagged(env, g, visited, depth, base, b);
      RewritesUnflagged(env, g, visited, depth, subtract, s);
  }

  lemma OperandsClear(w: World, g: Goal, rw: Rewrite, visited: set<Goal>)
    requires (g.obj.typ, g.relation) in w.relations && AllClear(w, g, rw, visited)
    ensures forall i :: 0 <= i < |Operands(rw)| ==> AllClear(w, g, Operands(rw)[i], visited)
  {
    forall i, h | 0 <= i < |Operands(rw)| && RewriteAsks(w, g, Operands(rw)[i], h) ensures Clear(w, h, visited) {
      assert RewriteAsks(w, g, rw, h);
    }
  }

  lemma {:induction false} ChildrenUnflagged(env: Env, g: Goal, visited: set<Goal>, depth: nat, rw: Rewrite,
                                             outs: seq<Outcome>)
    requires depth < env.maxDepth && (g.obj.typ, g.relation) in env.w.relations && (rw.Union? || rw.Intersection?)
    requires Children(env, g, visited, depth, rw.children, outs) && AllClear(env.w, g, rw, visited)
    ensures forall i :: 0 <= i < |outs| ==> !Flagged(outs[i])
    decreases env.maxDepth - depth, |Unvisited(env.w, g, visited)|, 4, rw, 0
  {
    OperandsClear(env.w, g, rw, visited);
    forall i | 0 <= i < |outs| ensures !Flagged(outs[i]) {
      assert AllClear(env.w, g, Operands(rw)[i], visited);
      RewritesUnflagged(env, g, visited, depth, rw.children[i], outs[i]);
    }
  }

  /** The answer of the handler for userset tuples. */
  lemma UsersetHandler(env: Env, g: Goal, visited: set<Goal>, depth: nat, o: Outcome)
    returns (targets: seq<Goal>, readFails: bool, u: Outcome)
    requires depth < env.maxDepth && (g.obj.typ, g.relation) in env.w.relations
    requires HasUsersets(env.w.relations[(g.obj.typ, g.relation)]) && Directly(env, g, visited, depth, o)
    ensures var rel := env.w.relations[(g.obj.typ, g.relation)];
      && targets == UsersetTargets(Visible(UsersetRows(env.w, rel, g)), g.user)
      && readFails == EndsInError(UsersetRows(env.w, rel, g))
      && Consults(env, g, This, targets, readFails, visited, depth, u)
      && MayUnion(TupleOutcomes(env.w, rel, g) + [u], o)
  {
    var rel := env.w.relations[(g.obj.typ, g.relation)];
    var rows := UsersetRows(env.w, rel, g);
    targets, readFails := UsersetTargets(Visible(rows), g.user), EndsInError(rows);
    u :| Consults(env, g, This, targets, readFails, visited, depth, u) &&
      MayUnion(TupleOutcomes(env.w, rel, g) + [u], o);
  }

  lemma {:induction false} DirectlyUnflagged(env: Env, g: Goal, visited: set<Goal>, depth: nat, o: Outcome)
    requires depth < env.maxDepth && (g.obj.typ, g.relation) in env.w.relations
    requires Directly(env, g, visited, depth, o) && AllClear(env.w, g, This, visited)
    ensures !Flagged(o)
    decreases env.maxDepth - depth, 0, 3
  {
    var rel := env.w.relations[(g.obj.typ, g.relation)];
    var fixed := TupleOutcomes(env.w, rel, g);
    TupleOutcomesUnflagged(env.w, rel, g);
    if HasUsersets(rel) {
      var targets, readFails, u := UsersetHandler(env, g, visited, depth, o);
      UsersetsAsked(env.w, g, visited);
      ConsultsUnflagged(env, g, This, targets, readFails, visited, depth, u);
      LastUnflagged(fixed, u, o);
    } else {
      UnionUnflagged(fixed, o);
    }
  }

  lemma TupleOutcomesUnflagged(w: World, rel: Relation, g: Goal)
    ensures forall i :: 0 <= i < |TupleOutcomes(w, rel, g)| ==> !Flagged(TupleOutcomes(w, rel, g)[i])
  {
  }

  lemma LastUnflagged(fixed: seq<Outcome>, u: Outcome, o: Outcome)
    requires (forall i :: 0 <= i < |fixed| ==> !Flagged(fixed[i])) && !Flagged(u) && MayUnion(fixed + [u], o)
    ensures !Flagged(o)
  {
    UnionUnflagged(fixed + [u], o);
  }

  lemma {:induction false} ConsultsUnflagged(env: Env, g: Goal, leaf: Rewrite, targets: seq<Goal>, readFails: bool,
                                             visited: set<Goal>, depth: nat, o: Outcome)
    requires depth < env.maxDepth && Consults(env, g, leaf, targets, readFails, visited, depth, o)
    requires TargetsClear(env.w, g, leaf, targets, visited)
    ensures !Flagged(o)
    decreases env.maxDepth - depth, 0, 2
  {
    if (g, leaf) !in env.w.fast {
      var outs, tail := SubOutcomes(env, targets, readFails, visited, depth, o);
      forall i | 0 <= i < |outs| ensures !Flagged(outs[i]) {
        DispatchedUnflagged(env, targets[i], visited, depth, outs[i]);
      }
      UnionUnflagged(outs + tail, o);
    }
  }

  /** What the sub-checks of a leaf answered, and the failed read if there was one. */
  lemma SubOutcomes(env: Env, targets: seq<Goal>, readFails: bool, visited: set<Goal>, depth: nat, o: Outcome)
    returns (outs: seq<Outcome>, tail: seq<Outcome>)
    requires depth < env.maxDepth && Dispatches(env, targets, readFails, visited, depth, o)
    ensures |outs| == |targets| && tail == (if readFails then [Err] else []) && MayUnion(outs + tail, o)
    ensures forall i :: 0 <= i < |targets| ==> Dispatched(env, targets[i], visited, depth, outs[i])
  {
    tail := if readFails then [Err] else [];
    outs :| |outs| == |targets| && MayUnion(outs + tail, o) &&
      forall i :: 0 <= i < |targets| ==> Dispatched(env, targets[i], visited, depth, outs[i]);
  }

  lemma {:induction false} DispatchedUnflagged(env: Env, t: Goal, visited: set<Goal>, depth: nat, o: Outcome)
    requires depth < env.maxDepth && Dispatched(env, t, visited, depth, o) && Clear(env.w, t, visited)
    ensures !Flagged(o)
    decreases env.maxDepth - depth, 0, 0
  {
    if Resolves(env, t, visited, depth + 1, o) { ResolvesUnflagged(env, t, visited, depth + 1, o); }
  }

  lemma UnionUnflagged(xs: seq<Outcome>, o: Outcome)
    requires MayUnion(xs, o) && forall i :: 0 <= i < |xs| ==> !Flagged(xs[i])
    ensures !Flagged(o)
  {
    UnionConfluent(xs, o);
  }

  lemma IntersectionUnflagged(xs: seq<Outcome>, o: Outcome)
    requires MayIntersect(xs, o) && forall i :: 0 <= i < |xs| ==> !Flagged(xs[i])
    ensures !Flagged(o)
  {
    IntersectionOrders(xs, o);
  }

  /** A flagged answer is caused by a goal at or below the request that is on the path or asks about itself. */
  lemma FlagHasCause(env: Env, g: Goal, visited: set<Goal>, depth: nat, o: Outcome) returns (h: Goal)
    requires depth <= env.maxDepth && Resolves(env, g, visited, depth, o) && Flagged(o)
    ensures Below(env.w, g, h) && (h in visited || AsksItself(env.w, h))
  {
    if Clear(env.w, g, visited) { ResolvesUnflagged(env, g, visited, depth, o); }
    h :| Below(env.w, g, h) && (h in visited || AsksItself(env.w, h));
  }

  /** Goals that can be ranked ask about nothing twice. */
  lemma RankedIsClear(w: World, g: Goal, visited: set<Goal>, rank: Goal -> nat)
    requires forall h, c :: Below(w, g, h) && Asks(w, h, c) ==> rank(c) < rank(h)
    requires forall h :: Below(w, g, h) ==> h !in visited
    ensures Clear(w, g, visited)
  {
    forall h | Below(w, g, h) ensures !AsksItself(w, h) {
      if c :| Asks(w, h, c) && Below(w, c, h) {
        BelowTrans(w, g, h, c);
        var n: nat :| AsksIn(w, c, h, n);
        RankFalls(w, g, c, h, n, rank);
      }
    }
  }

  lemma BelowTrans(w: World, g: Goal, h: Goal, c: Goal)
    requires Below(w, g, h) && Asks(w, h, c)
    ensures Below(w, g, c)
  {
    var n: nat :| AsksIn(w, g, h, n);
    AsksSnoc(w, g, h, c, n);
  }

  lemma {:induction false} AsksSnoc(w: World, g: Goal, h: Goal, c: Goal, n: nat)
    requires AsksIn(w, g, h, n) && Asks(w, h, c)
    ensures AsksIn(w, g, c, n + 1)
    decreases n
  {
    if n == 0 {
      assert AsksIn(w, c, c, 0);
    } else {
      var k :| Asks(w, g, k) && AsksIn(w, k, h, n - 1);
      AsksSnoc(w, k, h, c, n - 1);
    }
  }

  lemma {:induction false} RankFalls(w: World, g: Goal, c: Goal, h: Goal, n: nat, rank: Goal -> nat)
    requires forall h, c :: Below(w, g, h) && Asks(w, h, c) ==> rank(c) < rank(h)
    requires Below(w, g, c) && AsksIn(w, c, h, n)
    ensures rank(h) <= rank(c)
    decreases n
  {
    if n > 0 {
      var k :| Asks(w, c, k) && AsksIn(w, k, h, n - 1);
      BelowTrans(w, g, c, k);
      RankFalls(w, g, k, h, n - 1, rank);
    }
  }

  // ------------------------------------------------------------ what is derivable is answered

  /** Every fast path answers or fails for certain. */
  ghost predicate FastCertain(w: World) {
    forall g, leaf :: (g, leaf) in w.fast ==> !w.fast[(g, leaf)].MayFail?
  }

  /**
   * A goal derivable within the levels left, on a clear path, has no other outcome than its truth value:
   * no error, no flag and no other answer, whatever the order of arrival and the cached answers used.
   */
  lemma {:induction false} DerivedIsOnlyOutcome(env: Env, n: nat, g: Goal, visited: set<Goal>, depth: nat, o: Outcome,
                                                b: bool)
    requires CacheSound(env) && FastCertain(env.w)
    requires Derives(env.w, n, g, b) && depth + n <= env.maxDepth
    requires Clear(env.w, g, visited) && Resolves(env, g, visited, depth, o)
    ensures o == Resp(b, false)
    decreases n, 0
  {
    ClearSelf(env.w, g, visited);
    if !SelfDefining(g) && env.w.paths[PathOf(g)] {
      UnvisitedShrinks(env.w, g, visited);
      RewriteClear(env.w, g, visited);
      DerivedByRewrite(env, n - 1, g, visited + {g}, depth, env.w.relations[(g.obj.typ, g.relation)].rewrite, o, b);
    }
  }

  lemma {:induction false} DerivedByRewrite(env: Env, n: nat, g: Goal, visited: set<Goal>, depth: nat, rw: Rewrite,
                                            o: Outcome, b: bool)
    requires CacheSound(env) && FastCertain(env.w)
    requires depth < env.maxDepth && depth + 1 + n <= env.maxDepth && (g.obj.typ, g.relation) in env.w.relations
    requires RewriteDerives(env.w, n, g, rw, b)
    requires AllClear(env.w, g, rw, visited) && Rewrites(env, g, visited, depth, rw, o)
    ensures o == Resp(b, false)
    decreases n, 4, rw
  {
    RewritesUnflagged(env, g, visited, depth, rw, o);
    match rw
    case This => DerivedDirectly(env, n, g, visited, depth, o, b);
    case Computed(relation) =>
      var child := g.(relation := relation);
      assert RewriteAsks(env.w, g, rw, child);
      DerivedIsOnlyOutcome(env, n, child, visited, depth, o, b);
    case TupleToUserset(tupleset, computed) =>
      var rows := env.w.Rows(g.obj, tupleset);
      ParentsAsked(env.w, g, rw, visited);
      DerivedByConsulting(env, n, g, rw, ParentTargets(env.w, Visible(rows), computed, g.user), EndsInError(rows),
        visited, depth, o, b);
    case Union(children) =>
      var outs :| MayUnion(outs, o) && Children(env, g, visited, depth, children, outs);
      DerivedOperands(env, n, g, visited, depth, rw, outs, b);
      UnionConfluent(outs, o);
    case Intersection(children) =>
      var outs :| MayIntersect(outs, o) && Children(env, g, visited, depth, children, outs);
      DerivedOperands(env, n, g, visited, depth, rw, outs, b);
      ChildrenUnflagged(env, g, visited, depth, rw, outs);
      IntersectionDecided(outs, o, b);
    case Difference(base, subtract) =>
      var x, s :| Rewrites(env, g, visited, depth, base, x) && Rewrites(env, g, visited, depth, subtract, s) &&
        MayExclude(x, s, o);
      OperandsClear(env.w, g, rw, visited);
      RewritesUnflagged(env, g, visited, depth, base, x);
      RewritesUnflagged(env, g, visited, depth, subtract, s);
      if RewriteDerives(env.w, n, g, base, b) { DerivedByRewrite(env, n, g, visited, depth, base, x, b); }
      if RewriteDerives(env.w, n, g, subtract, !b) { DerivedByRewrite(env, n, g, visited, depth, subtract, s, !b); }
  }

  /** The derivable operands answer their truth value. */
  lemma {:induction false} DerivedOperands(env: Env, n: nat, g: Goal, visited: set<Goal>, depth: nat, rw: Rewrite,
                                           outs: seq<Outcome>, b: bool)
    requires CacheSound(env) && FastCertain(env.w) && (rw.Union? || rw.Intersection?)
    requires depth < env.maxDepth && depth + 1 + n <= env.maxDepth && (g.obj.typ, g.relation) in env.w.relations
    requires AllClear(env.w, g, rw, visited) && Children(env, g, visited, depth, rw.children, outs)
    ensures forall i :: 0 <= i < |outs| && RewriteDerives(env.w, n, g, rw.children[i], b) ==> outs[i] == Resp(b, false)
    decreases n, 4, rw, 0
  {
    OperandsClear(env.w, g, rw, visited);
    forall i | 0 <= i < |outs| && RewriteDerives(env.w, n, g, rw.children[i], b) ensures outs[i] == Resp(b, false) {
      assert AllClear(env.w, g, Operands(rw)[i], visited);
      DerivedByRewrite(env, n, g, visited, depth, rw.children[i], outs[i], b);
    }
  }

  lemma IntersectionDecided(xs: seq<Outcome>, o: Outcome, b: bool)
    requires MayIntersect(xs, o) && forall i :: 0 <= i < |xs| ==> !Flagged(xs[i])
    requires b ==> xs != [] && forall i :: 0 <= i < |xs| ==> xs[i] == ALLOWED
    requires !b ==> xs == [] || exists i :: 0 <= i < |xs| && xs[i] == DENIED
    ensures o == Resp(b, false)
  {
    IntersectionOrders(xs, o);
  }

  lemma {:induction false} DerivedDirectly(env: Env, n: nat, g: Goal, visited: set<Goal>, depth: nat, o: Outcome,
                                           b: bool)
    requires CacheSound(env) && FastCertain(env.w)
    requires depth < env.maxDepth && depth + 1 + n <= env.maxDepth && (g.obj.typ, g.relation) in env.w.relations
    requires DirectlyDerives(env.w, n, g, b) && !Flagged(o)
    requires AllClear(env.w, g, This, visited) && Directly(env, g, visited, depth, o)
    ensures o == Resp(b, false)
    decreases n, 3
  {
    var rel := env.w.relations[(g.obj.typ, g.relation)];
    var fixed := TupleOutcomes(env.w, rel, g);
    if HasUsersets(rel) {
      var targets, readFails, u := UsersetHandler(env, g, visited, depth, o);
      UsersetsAsked(env.w, g, visited);
      if ConsultsDerive(env.w, n, g, This, targets, readFails, b) {
        DerivedByConsulting(env, n, g, This, targets, readFails, visited, depth, u, b);
      }
      HandlersDecided(fixed, u, o, b);
    } else {
      UnionDecided(fixed, o, b);
    }
  }

  lemma UnionDecided(xs: seq<Outcome>, o: Outcome, b: bool)
    requires MayUnion(xs, o) && !Flagged(o)
    requires b ==> exists i :: 0 <= i < |xs| && xs[i] == ALLOWED
    requires !b ==> forall i :: 0 <= i < |xs| ==> xs[i] == DENIED
    ensures o == Resp(b, false)
  {
    UnionConfluent(xs, o);
  }

  lemma DispatchDecided(outs: seq<Outcome>, tail: seq<Outcome>, o: Outcome, b: bool)
    requires MayUnion(outs + tail, o) && !Flagged(o)
    requires b ==> exists i :: 0 <= i < |outs| && outs[i] == ALLOWED
    requires !b ==> tail == [] && forall i :: 0 <= i < |outs| ==> outs[i] == DENIED
    ensures o == Resp(b, false)
  {
    var all := outs + tail;
    assert forall i :: 0 <= i < |outs| ==> all[i] == outs[i];
    UnionDecided(all, o, b);
  }

  lemma HandlersDecided(fixed: seq<Outcome>, u: Outcome, o: Outcome, b: bool)
    requires MayUnion(fixed + [u], o) && !Flagged(o)
    requires b ==> ALLOWED in fixed || u == ALLOWED
    requires !b ==> u == DENIED && forall i :: 0 <= i < |fixed| ==> fixed[i] == DENIED
    ensures o == Resp(b, false)
  {
    var all := fixed + [u];
    assert all[|fixed|] == u && forall i :: 0 <= i < |fixed| ==> all[i] == fixed[i];
    UnionDecided(all, o, b);
  }

  lemma {:induction false} DerivedByConsulting(env: Env, n: nat, g: Goal, leaf: Rewrite, targets: seq<Goal>,
                                               readFails: bool, visited: set<Goal>, depth: nat, o: Outcome, b: bool)
    requires CacheSound(env) && FastCertain(env.w)
    requires depth < env.maxDepth && depth + 1 + n <= env.maxDepth
    requires ConsultsDerive(env.w, n, g, leaf, targets, readFails, b)
    requires TargetsClear(env.w, g, leaf, targets, visited)
    requires Consults(env, g, leaf, targets, readFails, visited, depth, o)
    ensures o == Resp(b, false)
    decreases n, 2
  {
    if (g, leaf) !in env.w.fast {
      ConsultsUnflagged(env, g, leaf, targets, readFails, visited, depth, o);
      var outs, tail := SubOutcomes(env, targets, readFails, visited, depth, o);
      forall i | 0 <= i < |outs| && Derives(env.w, n, targets[i], b) ensures outs[i] == Resp(b, false) {
        DerivedByDispatch(env, n, targets[i], visited, depth, outs[i], b);
      }
      DispatchDecided(outs, tail, o, b);
    }
  }

  lemma {:induction false} DerivedByDispatch(env: Env, n: nat, t: Goal, visited: set<Goal>, depth: nat, o: Outcome,
                                             b: bool)
    requires CacheSound(env) && FastCertain(env.w)
    requires depth < env.maxDepth && depth + 1 + n <= env.maxDepth && Derives(env.w, n, t, b)
    requires Clear(env.w, t, visited) && Dispatched(env, t, visited, depth, o)
    ensures o == Resp(b, false)
    decreases n, 1
  {
    if Resolves(env, t, visited, depth + 1, o) {
      DerivedIsOnlyOutcome(env, n, t, visited, depth + 1, o, b);
    } else {
      assert Settles(env.w, t, o.allowed) && Settles(env.w, t, b);
      SettlesUnique(env.w, t, o.allowed, b);
    }
  }

  /** The check has exactly one outcome for such a goal. */
  lemma DerivedOutcomes(env: Env, n: nat, g: Goal, visited: set<Goal>, depth: nat, o: Outcome, b: bool)
    requires CacheSound(env) && FastCertain(env.w)
    requires Derives(env.w, n, g, b) && depth + n <= env.maxDepth && Clear(env.w, g, visited)
    ensures Resolves(env, g, visited, depth, o) <==> o == Resp(b, false)
  {
    var p := ResolveTerminates(env, g, visited, depth);
    DerivedIsOnlyOutcome(env, n, g, visited, depth, p, b);
    if Resolves(env, g, visited, depth, o) { DerivedIsOnlyOutcome(env, n, g, visited, depth, o, b); }
  }
}
