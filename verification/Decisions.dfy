/**
 * A check fails only for a reason: a goal it asks about that cannot be resolved or is too far away. Where
 * neither that nor a cycle is met, it decides the goal.
 */
module Decisions {
  import opened Model
  import opened Reducers
  import opened Check
  import opened Soundness
  import opened Termination
  import opened Completeness

  // ------------------------------------------------------------ an error has a cause

  /** The tuple names the user, the wildcard of the user's type or a userset. */
  predicate LookedAt(g: Goal, row: Row) {
    row.user == g.user || row.user == User(Object(g.user.obj.typ, "*"), "") || row.user.relation != ""
  }

  /** Some tuple that the leaf looks at has a condition that fails to evaluate, or the fast path may fail. */
  ghost predicate RewriteFails(w: World, g: Goal, rw: Rewrite)
    requires (g.obj.typ, g.relation) in w.relations
  {
    match rw
    case This =>
      || ((g, rw) in w.fast && !w.fast[(g, rw)].Answers?)
      || exists row :: row in w.Rows(g.obj, g.relation) && row.cond == Broken && LookedAt(g, row)
    case Computed(_) => false
    case TupleToUserset(tupleset, _) =>
      || ((g, rw) in w.fast && !w.fast[(g, rw)].Answers?)
      || exists row :: row in w.Rows(g.obj, tupleset) && row.cond == Broken
    case Union(children) => exists i :: 0 <= i < |children| && RewriteFails(w, g, children[i])
    case Intersection(children) => exists i :: 0 <= i < |children| && RewriteFails(w, g, children[i])
    case Difference(base, subtract) => RewriteFails(w, g, base) || RewriteFails(w, g, subtract)
  }

  /** The goal cannot be resolved: its relation or its path is not known, or its rewrite may fail. */
  ghost predicate Unresolvable(w: World, g: Goal) {
    && !(g.user.obj == g.obj && g.user.relation == g.relation)
    && ((g.obj.typ, g.relation) !in w.relations || PathOf(g) !in w.paths ||
        (w.paths[PathOf(g)] && RewriteFails(w, g, w.relations[(g.obj.typ, g.relation)].rewrite)))
  }

  /** Everything at or below `g` can be resolved and is fewer than `m` questions away. */
  ghost predicate Safe(w: World, g: Goal, m: int) {
    forall h, n: nat :: AsksIn(w, g, h, n) ==> n < m && !Unresolvable(w, h)
  }

  /** Whatever the rewrite asks about is safe, and the rewrite itself cannot fail. */
  ghost predicate AllSafe(w: World, g: Goal, rw: Rewrite, m: int)
    requires (g.obj.typ, g.relation) in w.relations
  {
    !RewriteFails(w, g, rw) && forall h :: RewriteAsks(w, g, rw, h) ==> Safe(w, h, m)
  }

  lemma RewriteSafe(w: World, g: Goal, m: int)
    requires Safe(w, g, m) && !SelfDefining(g) && (g.obj.typ, g.relation) in w.relations
    requires PathOf(g) in w.paths && w.paths[PathOf(g)]
    ensures AllSafe(w, g, w.relations[(g.obj.typ, g.relation)].rewrite, m - 1)
  {
    assert AsksIn(w, g, g, 0);
    forall c | RewriteAsks(w, g, w.relations[(g.obj.typ, g.relation)].rewrite, c) ensures Safe(w, c, m - 1) {
      forall h, n: nat | AsksIn(w, c, h, n) ensures n < m - 1 && !Unresolvable(w, h) {
        assert Asks(w, g, c) && AsksIn(w, g, h, n + 1);
      }
    }
  }

  lemma OperandsSafe(w: World, g: Goal, rw: Rewrite, m: int)
    requires (g.obj.typ, g.relation) in w.relations && AllSafe(w, g, rw, m)
    ensures forall i :: 0 <= i < |Operands(rw)| ==> AllSafe(w, g, Operands(rw)[i], m)
  {
    forall i, h | 0 <= i < |Operands(rw)| && RewriteAsks(w, g, Operands(rw)[i], h) ensures Safe(w, h, m) {
      assert RewriteAsks(w, g, rw, h);
    }
    assert forall i :: 0 <= i < |Operands(rw)| && RewriteFails(w, g, Operands(rw)[i]) ==> RewriteFails(w, g, rw);
  }

  /** What a leaf may have to dispatch is safe, and reading it does not fail. */
  ghost predicate TargetsSafe(w: World, g: Goal, leaf: Rewrite, targets: seq<Goal>, readFails: bool, m: int) {
    if (g, leaf) in w.fast then w.fast[(g, leaf)].Answers?
    else !readFails && forall i :: 0 <= i < |targets| ==> Safe(w, targets[i], m)
  }

  lemma UsersetsSafe(w: World, g: Goal, m: int)
    requires (g.obj.typ, g.relation) in w.relations && AllSafe(w, g, This, m)
    ensures var rows := UsersetRows(w, w.relations[(g.obj.typ, g.relation)], g);
      TargetsSafe(w, g, This, UsersetTargets(Visible(rows), g.user), EndsInError(rows), m)
  {
    var rows := UsersetRows(w, w.relations[(g.obj.typ, g.relation)], g);
    var targets := UsersetTargets(Visible(rows), g.user);
    forall i | 0 <= i < |rows| ensures !rows[i].cond.Broken? {
      assert rows[i] in rows && rows[i] in w.Rows(g.obj, g.relation);
    }
    forall i | 0 <= i < |targets| && (g, This) !in w.fast ensures Safe(w, targets[i], m) {
      assert Visible(rows)[i] in Visible(rows) && Visible(rows)[i] in w.Rows(g.obj, g.relation);
      assert RewriteAsks(w, g, This, targets[i]);
    }
  }

  lemma ParentsSafe(w: World, g: Goal, leaf: Rewrite, m: int)
    requires (g.obj.typ, g.relation) in w.relations && leaf.TupleToUserset? && AllSafe(w, g, leaf, m)
    ensures var rows := w.Rows(g.obj, leaf.tupleset);
      TargetsSafe(w, g, leaf, ParentTargets(w, Visible(rows), leaf.computed, g.user), EndsInError(rows), m)
  {
    var rows := w.Rows(g.obj, leaf.tupleset);
    var visible := Visible(rows);
    var targets := ParentTargets(w, visible, leaf.computed, g.user);
    forall i | 0 <= i < |rows| ensures !rows[i].cond.Broken? {
      assert rows[i] in rows;
    }
    forall i | 0 <= i < |targets| && (g, leaf) !in w.fast ensures Safe(w, targets[i], m) {
      assert targets[i] in targets;
      var j :| 0 <= j < |visible| && targets[i] == Goal(visible[j].user.obj, leaf.computed, g.user) &&
        !SkipsParent(w, visible[j].user.obj.typ, leaf.computed);
      assert visible[j] in visible;
      assert RewriteAsks(w, g, leaf, targets[i]);
    }
  }

  /** Tuple lookups fail only on a tuple whose condition fails to evaluate. */
  lemma LookupsSafe(w: World, g: Goal, m: int)
    requires (g.obj.typ, g.relation) in w.relations && AllSafe(w, g, This, m)
    ensures var fixed := TupleOutcomes(w, w.relations[(g.obj.typ, g.relation)], g);
      forall i :: 0 <= i < |fixed| ==> !fixed[i].Err?
  {
    var direct, public := DirectRows(w, g), PublicRows(w, g);
    if direct != [] { assert direct[0] in direct && direct[0] in w.Rows(g.obj, g.relation); }
    forall i | 0 <= i < |public| ensures !public[i].cond.Broken? {
      assert public[i] in public && public[i] in w.Rows(g.obj, g.relation);
    }
  }

  lemma SafeMore(w: World, g: Goal, m: int)
    requires Safe(w, g, m)
    ensures Safe(w, g, m + 1)
  {
  }

  /**
   * An error is given only if some goal at or below the request cannot be resolved or is as many questions
   * away as levels are left.
   */
  lemma {:induction false} ResolvesSafely(env: Env, g: Goal, visited: set<Goal>, depth: nat, left: nat, o: Outcome)
    requires depth + left == env.maxDepth && Resolves(env, g, visited, depth, o) && Safe(env.w, g, left)
    ensures !o.Err?
    decreases left, |Unvisited(env.w, g, visited)|, 0
  {
    assert AsksIn(env.w, g, g, 0);
    if g !in visited && !SelfDefining(g) && env.w.paths[PathOf(g)] {
      UnvisitedShrinks(env.w, g, visited);
      RewriteSafe(env.w, g, left);
      RewritesSafely(env, g, visited + {g}, depth, env.w.relations[(g.obj.typ, g.relation)].rewrite, left - 1, o);
    }
  }

  lemma {:induction false} RewritesSafely(env: Env, g: Goal, visited: set<Goal>, depth: nat, rw: Rewrite, left: nat,
                                          o: Outcome)
    requires depth + 1 + left == env.maxDepth && (g.obj.typ, g.relation) in env.w.relations
    requires Rewrites(env, g, visited, depth, rw, o) && AllSafe(env.w, g, rw, left)
    ensures !o.Err?
    decreases left + 1, |Unvisited(env.w, g, visited)|, 4, rw
  {
    match rw
    case This => DirectlySafely(env, g, visited, depth, left, o);
    case Computed(relation) =>
      var child := g.(relation := relation);
      assert Unvisited(env.w, child, visited) == Unvisited(env.w, g, visited);
      assert RewriteAsks(env.w, g, rw, child);
      SafeMore(env.w, child, left);
      ResolvesSafely(env, child, visited, depth, left + 1, o);
    case TupleToUserset(tupleset, computed) =>
      var rows := env.w.Rows(g.obj, tupleset);
      ParentsSafe(env.w, g, rw, left);
      ConsultsSafely(env, g, rw, ParentTargets(env.w, Visible(rows), computed, g.user), EndsInError(rows), visited,
        depth, left, o);
    case Union(children) =>
      var outs :| MayUnion(outs, o) && Children(env, g, visited, depth, children, outs);
      ChildrenSafely(env, g, visited, depth, rw, left, outs);
      UnionSafe(outs, o);
    case Intersection(children) =>
      var outs :| MayIntersect(outs, o) && Children(env, g, visited, depth, children, outs);
      ChildrenSafely(env, g, visited, depth, rw, left, outs);
      IntersectionOrders(outs, o);
    case Difference(base, subtract) =>
      var b, s :| Rewrites(env, g, visited, depth, base, b) && Rewrites(env, g, visited, depth, subtract, s) &&
        MayExclude(b, s, o);
      OperandsSafe(env.w, g, rw, left);
      RewritesSafely(env, g, visited, depth, base, left, b);
      RewritesSafely(env, g, visited, depth, subtract, left, s);
  }

  lemma {:induction false} ChildrenSafely(env: Env, g: Goal, visited: set<Goal>, depth: nat, rw: Rewrite, left: nat,
                                          outs: seq<Outcome>)
    requires depth + 1 + left == env.maxDepth && (g.obj.typ, g.relation) in env.w.relations
    requires (rw.Union? || rw.Intersection?) && AllSafe(env.w, g, rw, left)
    requires Children(env, g, visited, depth, rw.children, outs)
    ensures forall i :: 0 <= i < |outs| ==> !outs[i].Err?
    decreases left + 1, |Unvisited(env.w, g, visited)|, 4, rw, 0
  {
    OperandsSafe(env.w, g, rw, left);
    forall i | 0 <= i < |outs| ensures !outs[i].Err? {
      assert AllSafe(env.w, g, Operands(rw)[i], left);
      RewritesSafely(env, g, visited, depth, rw.children[i], left, outs[i]);
    }
  }

  lemma {:induction false} DirectlySafely(env: Env, g: Goal, visited: set<Goal>, depth: nat, left: nat, o: Outcome)
    requires depth + 1 + left == env.maxDepth && (g.obj.typ, g.relation) in env.w.relations
    requires Directly(env, g, visited, depth, o) && AllSafe(env.w, g, This, left)
    ensures !o.Err?
    decreases left + 1, 0, 3
  {
    LookupsSafe(env.w, g, left);
    if HasUsersets(env.w.relations[(g.obj.typ, g.relation)]) {
      var targets, readFails, u := UsersetHandler(env, g, visited, depth, o);
      UsersetsSafe(env.w, g, left);
      ConsultsSafely(env, g, This, targets, readFails, visited, depth, left, u);
      LastSafe(TupleOutcomes(env.w, env.w.relations[(g.obj.typ, g.relation)], g), u, o);
    } else {
      OnlyLookups(env, g, visited, depth, o);
    }
  }

  lemma OnlyLookups(env: Env, g: Goal, visited: set<Goal>, depth: nat, o: Outcome)
    requires depth < env.maxDepth && (g.obj.typ, g.relation) in env.w.relations
    requires var rel := env.w.relations[(g.obj.typ, g.relation)];
      !HasUsersets(rel) && forall i :: 0 <= i < |TupleOutcomes(env.w, rel, g)| ==> !TupleOutcomes(env.w, rel, g)[i].Err?
    requires Directly(env, g, visited, depth, o)
    ensures !o.Err?
  {
    UnionSafe(TupleOutcomes(env.w, env.w.relations[(g.obj.typ, g.relation)], g), o);
  }

  lemma UnionSafe(xs: seq<Outcome>, o: Outcome)
    requires MayUnion(xs, o) && forall i :: 0 <= i < |xs| ==> !xs[i].Err?
    ensures !o.Err?
  {
    UnionConfluent(xs, o);
  }

  lemma LastSafe(fixed: seq<Outcome>, u: Outcome, o: Outcome)
    requires (forall i :: 0 <= i < |fixed| ==> !fixed[i].Err?) && !u.Err? && MayUnion(fixed + [u], o)
    ensures !o.Err?
  {
    UnionSafe(fixed + [u], o);
  }

  lemma {:induction false} ConsultsSafely(env: Env, g: Goal, leaf: Rewrite, targets: seq<Goal>, readFails: bool,
                                          visited: set<Goal>, depth: nat, left: nat, o: Outcome)
    requires depth + 1 + left == env.maxDepth && Consults(env, g, leaf, targets, readFails, visited, depth, o)
    requires TargetsSafe(env.w, g, leaf, targets, readFails, left)
    ensures !o.Err?
    decreases left + 1, 0, 2
  {
    if (g, leaf) !in env.w.fast {
      var outs, tail := SubOutcomes(env, targets, readFails, visited, depth, o);
      assert outs + tail == outs;
      forall i | 0 <= i < |outs| ensures !outs[i].Err? {
        DispatchedSafely(env, targets[i], visited, depth, left, outs[i]);
      }
      UnionSafe(outs, o);
    }
  }

  lemma {:induction false} DispatchedSafely(env: Env, t: Goal, visited: set<Goal>, depth: nat, left: nat, o: Outcome)
    requires depth + 1 + left == env.maxDepth && Dispatched(env, t, visited, depth, o) && Safe(env.w, t, left)
    ensures !o.Err?
    decreases left + 1, 0, 0
  {
    if Resolves(env, t, visited, depth + 1, o) { ResolvesSafely(env, t, visited, depth + 1, left, o); }
  }

  /** An error is caused by a goal at or below the request that cannot be resolved or is too far away. */
  lemma ErrorHasCause(env: Env, g: Goal, visited: set<Goal>, depth: nat) returns (h: Goal, n: nat)
    requires depth <= env.maxDepth && Resolves(env, g, visited, depth, Err)
    ensures AsksIn(env.w, g, h, n) && (Unresolvable(env.w, h) || n >= env.maxDepth - depth)
  {
    if Safe(env.w, g, env.maxDepth - depth) { ResolvesSafely(env, g, visited, depth, env.maxDepth - depth, Err); }
    h, n :| AsksIn(env.w, g, h, n) && (Unresolvable(env.w, h) || n >= env.maxDepth - depth);
  }

  /**
   * On a clear path, with everything below resolvable within the levels left, the goal has a truth value, and
   * the check has no other outcome.
   */
  lemma CheckDecides(env: Env, g: Goal, visited: set<Goal>, depth: nat) returns (b: bool)
    requires CacheSound(env) && depth <= env.maxDepth
    requires Clear(env.w, g, visited) && Safe(env.w, g, env.maxDepth - depth)
    ensures Settles(env.w, g, b)
    ensures forall o :: Resolves(env, g, visited, depth, o) <==> o == Resp(b, false)
  {
    var p := ResolveTerminates(env, g, visited, depth);
    ResolvesUnflagged(env, g, visited, depth, p);
    ResolvesSafely(env, g, visited, depth, env.maxDepth - depth, p);
    ResolvesSound(env, g, visited, depth, p);
    b := p.allowed;
    forall o | Resolves(env, g, visited, depth, o) ensures o == Resp(b, false) {
      ResolvesUnflagged(env, g, visited, depth, o);
      ResolvesSafely(env, g, visited, depth, env.maxDepth - depth, o);
      UnflaggedAnswersAgree(env, env, g, visited, visited, depth, depth, o, p);
    }
  }

  /** At the depth limit every check fails, also of a goal on the path or of the user's own userset. */
  lemma LimitFails(env: Env, g: Goal, visited: set<Goal>, o: Outcome)
    ensures Resolves(env, g, visited, env.maxDepth, o) <==> o == Err
  {
  }
}
