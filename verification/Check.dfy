/**
 * The recursive check: which outcomes a request can have over all orders in which concurrent
 * sub-checks finish, and over all use of cached answers at dispatch points. A leaf for which a fast
 * path is chosen answers from the table of fast answers instead of dispatching.
 */
module Check {
  import opened Model
  import opened Reducers

  /** A world, the resolution depth limit, and the cached answers available to dispatched sub-checks. */
  datatype Env = Env(w: World, maxDepth: nat, cached: set<(Goal, bool)>)

  /** checkDirectUserTuple. */
  function DirectOutcome(w: World, g: Goal): Outcome {
    var rows := DirectRows(w, g);
    if rows == [] then DENIED
    else match rows[0].cond
      case Met => ALLOWED
      case Unmet => DENIED
      case Broken => Err
  }

  /** checkPublicAssignable: the first tuple of the filtered iterator. */
  function PublicOutcome(w: World, g: Goal): Outcome {
    var rows := PublicRows(w, g);
    if Visible(rows) != [] then ALLOWED
    else if EndsInError(rows) then Err
    else DENIED
  }

  /** The handlers of checkDirect that dispatch nothing. */
  function TupleOutcomes(w: World, rel: Relation, g: Goal): seq<Outcome> {
    (if DirectlyRelated(rel, g.user) then [DirectOutcome(w, g)] else []) +
    (if PubliclyAssignable(rel, g.user) then [PublicOutcome(w, g)] else [])
  }

  /** The goals on the same object and user that are not yet on the path. */
  function Unvisited(w: World, g: Goal, visited: set<Goal>): set<Goal> {
    (set k | k in w.relations.Keys && k.0 == g.obj.typ :: Goal(g.obj, k.1, g.user)) - visited
  }

  lemma UnvisitedShrinks(w: World, g: Goal, visited: set<Goal>)
    requires (g.obj.typ, g.relation) in w.relations && g !in visited
    ensures |Unvisited(w, g, visited + {g})| < |Unvisited(w, g, visited)|
  {
    assert g == Goal(g.obj, (g.obj.typ, g.relation).1, g.user);
    assert g in Unvisited(w, g, visited);
    assert Unvisited(w, g, visited + {g}) == Unvisited(w, g, visited) - {g};
  }

  /**
   * LocalChecker.ResolveCheck may answer `o`. The recursion is well founded although computed
   * usersets do not increase the depth: each adds a goal on the same object and user to the path.
   */
  ghost predicate Resolves(env: Env, g: Goal, visited: set<Goal>, depth: nat, o: Outcome)
    requires depth <= env.maxDepth
    decreases env.maxDepth - depth, |Unvisited(env.w, g, visited)|, 0
  {
    if depth == env.maxDepth then o == Err
    else if g in visited then o == CYCLE
    else if SelfDefining(g) then o == ALLOWED
    else if env.w.GetRelation(g.obj.typ, g.relation).None? then o == Err
    else if PathOf(g) !in env.w.paths then o == Err
    else if !env.w.paths[PathOf(g)] then o == DENIED
    else
      UnvisitedShrinks(env.w, g, visited);
      Rewrites(env, g, visited + {g}, depth, env.w.relations[(g.obj.typ, g.relation)].rewrite, o)
  }

  /** CheckRewrite may answer `o` for the rewrite of the goal. */
  ghost predicate Rewrites(env: Env, g: Goal, visited: set<Goal>, depth: nat, rw: Rewrite, o: Outcome)
    requires depth < env.maxDepth && (g.obj.typ, g.relation) in env.w.relations
    decreases env.maxDepth - depth, |Unvisited(env.w, g, visited)|, 4, rw
  {
    match rw
    case This => Directly(env, g, visited, depth, o)
    case Computed(relation) =>
      var child := g.(relation := relation);
      assert Unvisited(env.w, child, visited) == Unvisited(env.w, g, visited);
      Resolves(env, child, visited, depth, o)
    case TupleToUserset(tupleset, computed) =>
      var rows := env.w.Rows(g.obj, tupleset);
      Consults(env, g, rw, ParentTargets(env.w, Visible(rows), computed, g.user), EndsInError(rows), visited, depth, o)
    case Union(children) =>
      exists outs: seq<Outcome> :: MayUnion(outs, o) && Children(env, g, visited, depth, children, outs)
    case Intersection(children) =>
      exists outs: seq<Outcome> :: MayIntersect(outs, o) && Children(env, g, visited, depth, children, outs)
    case Difference(base, subtract) =>
      exists b, s :: Rewrites(env, g, visited, depth, base, b) && Rewrites(env, g, visited, depth, subtract, s) &&
        MayExclude(b, s, o)
  }

  /** The operands of a set operator may answer `outs`, one each. */
  ghost predicate Children(env: Env, g: Goal, visited: set<Goal>, depth: nat, children: seq<Rewrite>,
                           outs: seq<Outcome>)
    requires depth < env.maxDepth && (g.obj.typ, g.relation) in env.w.relations
    decreases env.maxDepth - depth, |Unvisited(env.w, g, visited)|, 4, children
  {
    |outs| == |children| && forall i :: 0 <= i < |children| ==> Rewrites(env, g, visited, depth, children[i], outs[i])
  }

  /** checkDirect may answer `o`: its handlers are the tuple lookups and the one for userset tuples. */
  ghost predicate Directly(env: Env, g: Goal, visited: set<Goal>, depth: nat, o: Outcome)
    requires depth < env.maxDepth && (g.obj.typ, g.relation) in env.w.relations
    decreases env.maxDepth - depth, 0, 3
  {
    var rel := env.w.relations[(g.obj.typ, g.relation)];
    var rows := UsersetRows(env.w, rel, g);
    var fixed := TupleOutcomes(env.w, rel, g);
    if HasUsersets(rel) then
      exists u ::
        && Consults(env, g, This, UsersetTargets(Visible(rows), g.user), EndsInError(rows), visited, depth, u)
        && MayUnion(fixed + [u], o)
    else MayUnion(fixed, o)
  }

  /** The usersets or parents of a leaf may be consulted to `o`: by a fast path if one is chosen, else by sub-checks. */
  ghost predicate Consults(env: Env, g: Goal, leaf: Rewrite, targets: seq<Goal>, readFails: bool, visited: set<Goal>,
                           depth: nat,
                           o: Outcome)
    requires depth < env.maxDepth
    decreases env.maxDepth - depth, 0, 2
  {
    if (g, leaf) in env.w.fast then FastMay(env.w.fast[(g, leaf)], o)
    else Dispatches(env, targets, readFails, visited, depth, o)
  }

  /** A fast path gives its answer, never flagged, or fails. */
  predicate FastMay(a: FastAnswer, o: Outcome) {
    (!a.Fails? && o == Resp(a.allowed, false)) || (!a.Answers? && o == Err)
  }

  /** The dispatched sub-checks, and a failed read if there was one, may be consumed to `o`. */
  ghost predicate Dispatches(env: Env, targets: seq<Goal>, readFails: bool, visited: set<Goal>, depth: nat, o: Outcome)
    requires depth < env.maxDepth
    decreases env.maxDepth - depth, 0, 1
  {
    exists outs: seq<Outcome> :: |outs| == |targets| && MayUnion(outs + (if readFails then [Err] else []), o) &&
      forall i :: 0 <= i < |targets| ==> Dispatched(env, targets[i], visited, depth, outs[i])
  }

  /** A sub-check one level deeper, answered from the cache or resolved. */
  ghost predicate Dispatched(env: Env, t: Goal, visited: set<Goal>, depth: nat, o: Outcome)
    requires depth < env.maxDepth
    decreases env.maxDepth - depth, 0, 0
  {
    || ((t, true) in env.cached && o == ALLOWED)
    || ((t, false) in env.cached && o == DENIED)
    || Resolves(env, t, visited, depth + 1, o)
  }
}
