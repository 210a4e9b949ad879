/** Every check request has an outcome: the recursion ends on every model and tuple set. */
module Termination {
  import opened Model
  import opened Reducers
  import opened Check

  /**
   * Whatever the model (computed relations may be cyclic) and the tuples, a request resolves: the
   * evaluation is a finite tree, and combining its leaves gives an answer at every node.
   */
  lemma {:induction false} ResolveTerminates(env: Env, g: Goal, visited: set<Goal>, depth: nat) returns (o: Outcome)
    requires depth <= env.maxDepth
    ensures Resolves(env, g, visited, depth, o)
    decreases env.maxDepth - depth, |Unvisited(env.w, g, visited)|, 0
  {
    if depth == env.maxDepth { return Err; }
    if g in visited { return CYCLE; }
    if SelfDefining(g) { return ALLOWED; }
    if (g.obj.typ, g.relation) !in env.w.relations || PathOf(g) !in env.w.paths { return Err; }
    if !env.w.paths[PathOf(g)] { return DENIED; }
    UnvisitedShrinks(env.w, g, visited);
    o := RewriteTerminates(env, g, visited + {g}, depth, env.w.relations[(g.obj.typ, g.relation)].rewrite);
  }

  lemma {:induction false} RewriteTerminates(env: Env, g: Goal, visited: set<Goal>, depth: nat, rw: Rewrite)
    returns (o: Outcome)
    requires depth < env.maxDepth && (g.obj.typ, g.relation) in env.w.relations
    ensures Rewrites(env, g, visited, depth, rw, o)
    decreases env.maxDepth - depth, |Unvisited(env.w, g, visited)|, 4, rw
  {
    match rw
    case This => o := DirectlyTerminates(env, g, visited, depth);
    case Computed(relation) =>
      var child := g.(relation := relation);
      assert Unvisited(env.w, child, visited) == Unvisited(env.w, g, visited);
      o := ResolveTerminates(env, child, visited, depth);
    case TupleToUserset(tupleset, computed) =>
      var rows := env.w.Rows(g.obj, tupleset);
      o := ConsultsTerminate(env, g, rw, ParentTargets(env.w, Visible(rows), computed, g.user), EndsInError(rows),
        visited, depth);
    case Union(children) =>
      var outs := ChildrenTerminate(env, g, visited, depth, children, |children|);
      o := UnionAnswers(outs);
    case Intersection(children) =>
      var outs := ChildrenTerminate(env, g, visited, depth, children, |children|);
      o := IntersectionAnswers(outs);
    case Difference(base, subtract) =>
      var b := RewriteTerminates(env, g, visited, depth, base);
      var s := RewriteTerminates(env, g, visited, depth, subtract);
      o := ExclusionAnswers(b, s);
  }

  lemma UnionAnswers(xs: seq<Outcome>) returns (o: Outcome)
    ensures MayUnion(xs, o)
  {
    if i :| 0 <= i < |xs| && Allows(xs[i]) {
      o := xs[i];
    } else if Err in xs {
      o := Err;
    } else {
      o := Resp(false, exists i :: 0 <= i < |xs| && Flagged(xs[i]));
    }
    UnionConfluent(xs, o);
  }

  lemma IntersectionAnswers(xs: seq<Outcome>) returns (o: Outcome)
    ensures MayIntersect(xs, o)
  {
    if xs == [] {
      o := DENIED;
    } else if i :| 0 <= i < |xs| && Stops(xs[i]) {
      o := xs[i];
    } else if Err in xs {
      o := Err;
    } else {
      o := ALLOWED;
    }
    IntersectionOrders(xs, o);
  }

  lemma ExclusionAnswers(b: Outcome, s: Outcome) returns (o: Outcome)
    ensures MayExclude(b, s, o)
  {
    if BaseSettles(b) {
      o := SettledBy(b);
    } else if SubtractSettles(s) {
      o := SettledBy(s);
    } else if b.Err? || s.Err? {
      o := Err;
    } else {
      o := ALLOWED;
    }
    assert ExclusionOf(true, b, s, o);
  }

  lemma {:induction false} ChildrenTerminate(env: Env, g: Goal, visited: set<Goal>, depth: nat, children: seq<Rewrite>,
                                             k: nat)
    returns (outs: seq<Outcome>)
    requires depth < env.maxDepth && (g.obj.typ, g.relation) in env.w.relations && k <= |children|
    ensures |outs| == k && forall i :: 0 <= i < k ==> Rewrites(env, g, visited, depth, children[i], outs[i])
    decreases env.maxDepth - depth, |Unvisited(env.w, g, visited)|, 4, children, k
  {
    if k == 0 {
      outs := [];
    } else {
      outs := ChildrenTerminate(env, g, visited, depth, children, k - 1);
      var o := RewriteTerminates(env, g, visited, depth, children[k - 1]);
      outs := outs + [o];
    }
  }

  lemma {:induction false} DirectlyTerminates(env: Env, g: Goal, visited: set<Goal>, depth: nat) returns (o: Outcome)
    requires depth < env.maxDepth && (g.obj.typ, g.relation) in env.w.relations
    ensures Directly(env, g, visited, depth, o)
    decreases env.maxDepth - depth, 0, 3
  {
    var rel := env.w.relations[(g.obj.typ, g.relation)];
    var rows := UsersetRows(env.w, rel, g);
    var fixed := TupleOutcomes(env.w, rel, g);
    if HasUsersets(rel) {
      var u := ConsultsTerminate(env, g, This, UsersetTargets(Visible(rows), g.user), EndsInError(rows), visited,
        depth);
      o := UnionAnswers(fixed + [u]);
    } else {
      o := UnionAnswers(fixed);
    }
  }

  lemma {:induction false} ConsultsTerminate(env: Env, g: Goal, leaf: Rewrite, targets: seq<Goal>, readFails: bool,
                                             visited: set<Goal>, depth: nat)
    returns (o: Outcome)
    requires depth < env.maxDepth
    ensures Consults(env, g, leaf, targets, readFails, visited, depth, o)
    decreases env.maxDepth - depth, 0, 2
  {
    if (g, leaf) in env.w.fast {
      var a := env.w.fast[(g, leaf)];
      o := if a.Fails? then Err else Resp(a.allowed, false);
    } else {
      o := DispatchesTerminate(env, targets, readFails, visited, depth);
    }
  }

  lemma {:induction false} DispatchesTerminate(env: Env, targets: seq<Goal>, readFails: bool, visited: set<Goal>,
                                               depth: nat)
    returns (o: Outcome)
    requires depth < env.maxDepth
    ensures Dispatches(env, targets, readFails, visited, depth, o)
    decreases env.maxDepth - depth, 0, 1, |targets| + 1
  {
    var outs := AllDispatched(env, targets, visited, depth, |targets|);
    o := UnionAnswers(outs + (if readFails then [Err] else []));
  }

  lemma {:induction false} AllDispatched(env: Env, targets: seq<Goal>, visited: set<Goal>, depth: nat, k: nat)
    returns (outs: seq<Outcome>)
    requires depth < env.maxDepth && k <= |targets|
    ensures |outs| == k && forall i :: 0 <= i < k ==> Dispatched(env, targets[i], visited, depth, outs[i])
    decreases env.maxDepth - depth, 0, 1, k
  {
    if k == 0 {
      outs := [];
    } else {
      outs := AllDispatched(env, targets, visited, depth, k - 1);
      var o := ResolveTerminates(env, targets[k - 1], visited, depth + 1);
      outs := outs + [o];
    }
  }
}
