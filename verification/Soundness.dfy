/** Answers without a cycle flag have finite derivations, so they do not depend on how they were found. */
module Soundness {
  import opened Model
  import opened Reducers
  import opened Check

  // ------------------------------------------------------------ derivations of both truth values

  // The answers of the fast paths are taken as given here. What they mean is the subject of the modules
  // about the fast paths; over cyclic tuples they deny goals that have no finite refutation.

  /** Within `n` levels of goals, `g` is derivably true (`b`) or derivably false (`!b`). */
  ghost predicate Derives(w: World, n: nat, g: Goal, b: bool)
    decreases n, 0
  {
    n > 0 &&
    if SelfDefining(g) then b
    else
      (g.obj.typ, g.relation) in w.relations && PathOf(g) in w.paths &&
      if w.paths[PathOf(g)] then RewriteDerives(w, n - 1, g, w.relations[(g.obj.typ, g.relation)].rewrite, b) else !b
  }

  ghost predicate RewriteDerives(w: World, n: nat, g: Goal, rw: Rewrite, b: bool)
    requires (g.obj.typ, g.relation) in w.relations
    decreases n, 4, rw
  {
    match rw
    case This => DirectlyDerives(w, n, g, b)
    case Computed(relation) => Derives(w, n, g.(relation := relation), b)
    case TupleToUserset(tupleset, computed) =>
      var rows := w.Rows(g.obj, tupleset);
      ConsultsDerive(w, n, g, rw, ParentTargets(w, Visible(rows), computed, g.user), EndsInError(rows), b)
    case Union(children) =>
      if b then exists i :: 0 <= i < |children| && RewriteDerives(w, n, g, children[i], true)
      else forall i :: 0 <= i < |children| ==> RewriteDerives(w, n, g, children[i], false)
    case Intersection(children) =>
      if b then children != [] && forall i :: 0 <= i < |children| ==> RewriteDerives(w, n, g, children[i], true)
      else children == [] || exists i :: 0 <= i < |children| && RewriteDerives(w, n, g, children[i], false)
    case Difference(base, subtract) =>
      if b then RewriteDerives(w, n, g, base, true) && RewriteDerives(w, n, g, subtract, false)
      else RewriteDerives(w, n, g, base, false) || RewriteDerives(w, n, g, subtract, true)
  }

  ghost predicate DirectlyDerives(w: World, n: nat, g: Goal, b: bool)
    requires (g.obj.typ, g.relation) in w.relations
    decreases n, 3
  {
    var rel := w.relations[(g.obj.typ, g.relation)];
    var rows := UsersetRows(w, rel, g);
    var fixed := TupleOutcomes(w, rel, g);
    var targets := UsersetTargets(Visible(rows), g.user);
    if b then ALLOWED in fixed || (HasUsersets(rel) && ConsultsDerive(w, n, g, This, targets, EndsInError(rows), true))
    else
      && (forall i :: 0 <= i < |fixed| ==> fixed[i] == DENIED)
      && (HasUsersets(rel) ==> ConsultsDerive(w, n, g, This, targets, EndsInError(rows), false))
  }

  ghost predicate ConsultsDerive(w: World, n: nat, g: Goal, leaf: Rewrite, targets: seq<Goal>, readFails: bool, b: bool)
    decreases n, 2
  {
    if (g, leaf) in w.fast then !w.fast[(g, leaf)].Fails? && w.fast[(g, leaf)].allowed == b
    else TargetsDerive(w, n, targets, readFails, b)
  }

  ghost predicate TargetsDerive(w: World, n: nat, targets: seq<Goal>, readFails: bool, b: bool)
    decreases n, 1
  {
    if b then exists i :: 0 <= i < |targets| && Derives(w, n, targets[i], true)
    else !readFails && forall i :: 0 <= i < |targets| ==> Derives(w, n, targets[i], false)
  }

  /** `g` has the truth value `b`: some finite derivation shows it. */
  ghost predicate Settles(w: World, g: Goal, b: bool) {
    exists n :: Derives(w, n, g, b)
  }

  lemma {:induction false} DerivesMonotone(w: World, n: nat, m: nat, g: Goal, b: bool)
    requires n <= m && Derives(w, n, g, b)
    ensures Derives(w, m, g, b)
    decreases n, 0
  {
    if !SelfDefining(g) && w.paths[PathOf(g)] {
      RewriteMonotone(w, n - 1, m - 1, g, w.relations[(g.obj.typ, g.relation)].rewrite, b);
    }
  }

  lemma {:induction false} TargetsMonotone(w: World, n: nat, m: nat, targets: seq<Goal>, readFails: bool, b: bool)
    requires n <= m && TargetsDerive(w, n, targets, readFails, b)
    ensures TargetsDerive(w, m, targets, readFails, b)
    decreases n, 1
  {
    forall i | 0 <= i < |targets| && Derives(w, n, targets[i], b) ensures Derives(w, m, targets[i], b) {
      DerivesMonotone(w, n, m, targets[i], b);
    }
  }

  lemma {:induction false} ConsultsMonotone(w: World, n: nat, m: nat, g: Goal, leaf: Rewrite, targets: seq<Goal>,
                                            readFails: bool, b: bool)
    requires n <= m && ConsultsDerive(w, n, g, leaf, targets, readFails, b)
    ensures ConsultsDerive(w, m, g, leaf, targets, readFails, b)
    decreases n, 2
  {
    if (g, leaf) !in w.fast { TargetsMonotone(w, n, m, targets, readFails, b); }
  }

  lemma {:induction false} RewriteMonotone(w: World, n: nat, m: nat, g: Goal, rw: Rewrite, b: bool)
    requires (g.obj.typ, g.relation) in w.relations
    requires n <= m && RewriteDerives(w, n, g, rw, b)
    ensures RewriteDerives(w, m, g, rw, b)
    decreases n, 4, rw
  {
    match rw
    case This => DirectlyMonotone(w, n, m, g, b);
    case Computed(relation) => DerivesMonotone(w, n, m, g.(relation := relation), b);
    case TupleToUserset(tupleset, computed) =>
      var rows := w.Rows(g.obj, tupleset);
      ConsultsMonotone(w, n, m, g, rw, ParentTargets(w, Visible(rows), computed, g.user), EndsInError(rows), b);
    case Union(children) => ChildrenMonotone(w, n, m, g, children, b);
    case Intersection(children) => ChildrenMonotone(w, n, m, g, children, b);
    case Difference(base, subtract) =>
      if RewriteDerives(w, n, g, base, b) { RewriteMonotone(w, n, m, g, base, b); }
      if RewriteDerives(w, n, g, subtract, !b) { RewriteMonotone(w, n, m, g, subtract, !b); }
  }

  lemma {:induction false} DirectlyMonotone(w: World, n: nat, m: nat, g: Goal, b: bool)
    requires (g.obj.typ, g.relation) in w.relations
    requires n <= m && DirectlyDerives(w, n, g, b)
    ensures DirectlyDerives(w, m, g, b)
    decreases n, 3
  {
    var rel := w.relations[(g.obj.typ, g.relation)];
    var rows := UsersetRows(w, rel, g);
    var targets := UsersetTargets(Visible(rows), g.user);
    if ConsultsDerive(w, n, g, This, targets, EndsInError(rows), b) {
      ConsultsMonotone(w, n, m, g, This, targets, EndsInError(rows), b);
    }
  }

  lemma {:induction false} ChildrenMonotone(w: World, n: nat, m: nat, g: Goal, children: seq<Rewrite>, b: bool)
    requires (g.obj.typ, g.relation) in w.relations && n <= m
    ensures forall i :: 0 <= i < |children| ==> RewriteDerives(w, n, g, children[i], b) ==>
      RewriteDerives(w, m, g, children[i], b)
    decreases n, 4, children
  {
    forall i | 0 <= i < |children| && RewriteDerives(w, n, g, children[i], b)
      ensures RewriteDerives(w, m, g, children[i], b)
    {
      RewriteMonotone(w, n, m, g, children[i], b);
    }
  }

  /** No goal is derivably true and derivably false. */
  lemma {:induction false} DerivesConsistent(w: World, n: nat, g: Goal)
    ensures !(Derives(w, n, g, true) && Derives(w, n, g, false))
    decreases n, 0
  {
    if Derives(w, n, g, true) && Derives(w, n, g, false) {
      RewriteConsistent(w, n - 1, g, w.relations[(g.obj.typ, g.relation)].rewrite);
    }
  }

  lemma {:induction false} TargetsConsistent(w: World, n: nat, targets: seq<Goal>, readFails: bool)
    ensures !(TargetsDerive(w, n, targets, readFails, true) && TargetsDerive(w, n, targets, readFails, false))
    decreases n, 1
  {
    if i :| 0 <= i < |targets| && Derives(w, n, targets[i], true) { DerivesConsistent(w, n, targets[i]); }
  }

  lemma {:induction false} ConsultsConsistent(w: World, n: nat, g: Goal, leaf: Rewrite, targets: seq<Goal>,
                                              readFails: bool)
    ensures !(ConsultsDerive(w, n, g, leaf, targets, readFails, true) &&
      ConsultsDerive(w, n, g, leaf, targets, readFails, false))
    decreases n, 2
  {
    TargetsConsistent(w, n, targets, readFails);
  }

  lemma {:induction false} RewriteConsistent(w: World, n: nat, g: Goal, rw: Rewrite)
    requires (g.obj.typ, g.relation) in w.relations
    ensures !(RewriteDerives(w, n, g, rw, true) && RewriteDerives(w, n, g, rw, false))
    decreases n, 4, rw
  {
    match rw
    case This =>
      var rel := w.relations[(g.obj.typ, g.relation)];
      var rows := UsersetRows(w, rel, g);
      ConsultsConsistent(w, n, g, This, UsersetTargets(Visible(rows), g.user), EndsInError(rows));
    case Computed(relation) => DerivesConsistent(w, n, g.(relation := relation));
    case TupleToUserset(tupleset, computed) =>
      var rows := w.Rows(g.obj, tupleset);
      ConsultsConsistent(w, n, g, rw, ParentTargets(w, Visible(rows), computed, g.user), EndsInError(rows));
    case Union(children) =>
      forall i | 0 <= i < |children|
        ensures !(RewriteDerives(w, n, g, children[i], true) && RewriteDerives(w, n, g, children[i], false))
      {
        RewriteConsistent(w, n, g, children[i]);
      }
    case Intersection(children) =>
      forall i | 0 <= i < |children|
        ensures !(RewriteDerives(w, n, g, children[i], true) && RewriteDerives(w, n, g, children[i], false))
      {
        RewriteConsistent(w, n, g, children[i]);
      }
    case Difference(base, subtract) =>
      RewriteConsistent(w, n, g, base);
      RewriteConsistent(w, n, g, subtract);
  }

  /** A goal has at most one truth value. */
  lemma SettlesUnique(w: World, g: Goal, a: bool, b: bool)
    requires Settles(w, g, a) && Settles(w, g, b)
    ensures a == b
  {
    var n :| Derives(w, n, g, a);
    var m :| Derives(w, m, g, b);
    var k := if n < m then m else n;
    DerivesMonotone(w, n, k, g, a);
    DerivesMonotone(w, m, k, g, b);
    DerivesConsistent(w, k, g);
  }

  // ------------------------------------------------------------ no response is allowed and flagged

  lemma {:induction false} ResolvesCoherent(env: Env, g: Goal, visited: set<Goal>, depth: nat, o: Outcome)
    requires depth <= env.maxDepth && Resolves(env, g, visited, depth, o)
    ensures Coherent(o)
    decreases env.maxDepth - depth, |Unvisited(env.w, g, visited)|, 0
  {
    if depth < env.maxDepth && g !in visited && !SelfDefining(g) && (g.obj.typ, g.relation) in env.w.relations
       && PathOf(g) in env.w.paths && env.w.paths[PathOf(g)] {
      UnvisitedShrinks(env.w, g, visited);
      RewritesCoherent(env, g, visited + {g}, depth, env.w.relations[(g.obj.typ, g.relation)].rewrite, o);
    }
  }

  lemma {:induction false} RewritesCoherent(env: Env, g: Goal, visited: set<Goal>, depth: nat, rw: Rewrite, o: Outcome)
    requires depth < env.maxDepth && (g.obj.typ, g.relation) in env.w.relations
    requires Rewrites(env, g, visited, depth, rw, o)
    ensures Coherent(o)
    decreases env.maxDepth - depth, |Unvisited(env.w, g, visited)|, 4, rw
  {
    match rw
    case This => DirectlyCoherent(env, g, visited, depth, o);
    case Computed(relation) =>
      assert Unvisited(env.w, g.(relation := relation), visited) == Unvisited(env.w, g, visited);
      ResolvesCoherent(env, g.(relation := relation), visited, depth, o);
    case TupleToUserset(tupleset, computed) =>
      var rows := env.w.Rows(g.obj, tupleset);
      ConsultsCoherent(env, g, rw, ParentTargets(env.w, Visible(rows), computed, g.user), EndsInError(rows), visited,
        depth, o);
    case Union(children) =>
      var outs :| MayUnion(outs, o) && Children(env, g, visited, depth, children, outs);
      ChildrenCoherent(env, g, visited, depth, children, outs);
      UnionCoherent(outs, o);
    case Intersection(children) =>
      var outs :| MayIntersect(outs, o) && Children(env, g, visited, depth, children, outs);
      ChildrenCoherent(env, g, visited, depth, children, outs);
      IntersectionCoherent(outs, o);
    case Difference(base, subtract) =>
  }

  lemma {:induction false} ChildrenCoherent(env: Env, g: Goal, visited: set<Goal>, depth: nat, children: seq<Rewrite>,
                                            outs: seq<Outcome>)
    requires depth < env.maxDepth && (g.obj.typ, g.relation) in env.w.relations
    requires Children(env, g, visited, depth, children, outs)
    ensures forall i :: 0 <= i < |outs| ==> Coherent(outs[i])
    decreases env.maxDepth - depth, |Unvisited(env.w, g, visited)|, 4, children
  {
    forall i | 0 <= i < |outs|
      ensures Coherent(outs[i])
    {
      RewritesCoherent(env, g, visited, depth, children[i], outs[i]);
    }
  }

  lemma {:induction false} DirectlyCoherent(env: Env, g: Goal, visited: set<Goal>, depth: nat, o: Outcome)
    requires depth < env.maxDepth && (g.obj.typ, g.relation) in env.w.relations
    requires Directly(env, g, visited, depth, o)
    ensures Coherent(o)
    decreases env.maxDepth - depth, 0, 3
  {
    var rel := env.w.relations[(g.obj.typ, g.relation)];
    var rows := UsersetRows(env.w, rel, g);
    var fixed := TupleOutcomes(env.w, rel, g);
    TupleOutcomesCoherent(env.w, rel, g);
    if HasUsersets(rel) {
      var targets := UsersetTargets(Visible(rows), g.user);
      var u :| Consults(env, g, This, targets, EndsInError(rows), visited, depth, u) && MayUnion(fixed + [u], o);
      ConsultsCoherent(env, g, This, targets, EndsInError(rows), visited, depth, u);
      TuplesCoherent(fixed, u, o);
    } else {
      UnionCoherent(fixed, o);
    }
  }

  lemma TuplesCoherent(fixed: seq<Outcome>, u: Outcome, o: Outcome)
    requires (forall i :: 0 <= i < |fixed| ==> Coherent(fixed[i])) && Coherent(u) && MayUnion(fixed + [u], o)
    ensures Coherent(o)
  {
    UnionCoherent(fixed + [u], o);
  }

  lemma TupleOutcomesCoherent(w: World, rel: Relation, g: Goal)
    ensures forall i :: 0 <= i < |TupleOutcomes(w, rel, g)| ==> Coherent(TupleOutcomes(w, rel, g)[i])
  {
  }

  lemma {:induction false} ConsultsCoherent(env: Env, g: Goal, leaf: Rewrite, targets: seq<Goal>, readFails: bool,
                                            visited: set<Goal>,
                                            depth: nat, o: Outcome)
    requires depth < env.maxDepth && Consults(env, g, leaf, targets, readFails, visited, depth, o)
    ensures Coherent(o)
    decreases env.maxDepth - depth, 0, 2
  {
    if (g, leaf) !in env.w.fast { DispatchesCoherent(env, targets, readFails, visited, depth, o); }
  }

  lemma {:induction false} DispatchesCoherent(env: Env, targets: seq<Goal>, readFails: bool, visited: set<Goal>,
                                              depth: nat, o: Outcome)
    requires depth < env.maxDepth && Dispatches(env, targets, readFails, visited, depth, o)
    ensures Coherent(o)
    decreases env.maxDepth - depth, 0, 1
  {
    var tail := if readFails then [Err] else [];
    var outs: seq<Outcome> :| |outs| == |targets| && MayUnion(outs + tail, o) &&
      forall i :: 0 <= i < |targets| ==> Dispatched(env, targets[i], visited, depth, outs[i]);
    forall i | 0 <= i < |outs| ensures Coherent(outs[i]) {
      if Resolves(env, targets[i], visited, depth + 1, outs[i]) {
        ResolvesCoherent(env, targets[i], visited, depth + 1, outs[i]);
      }
    }
    UnionCoherent(outs + tail, o);
  }

  lemma UnionCoherent(xs: seq<Outcome>, o: Outcome)
    requires MayUnion(xs, o) && forall i :: 0 <= i < |xs| ==> Coherent(xs[i])
    ensures Coherent(o)
  {
    UnionConfluent(xs, o);
  }

  lemma IntersectionCoherent(xs: seq<Outcome>, o: Outcome)
    requires MayIntersect(xs, o) && forall i :: 0 <= i < |xs| ==> Coherent(xs[i])
    ensures Coherent(o)
  {
    IntersectionOrders(xs, o);
  }

  // ------------------------------------------------------------ unflagged answers are derivable

  /** Every cached answer is the truth value of its goal. */
  ghost predicate CacheSound(env: Env) {
    forall t, b :: (t, b) in env.cached ==> Settles(env.w, t, b)
  }

  /** A response that can be cached: no error, no cycle flag. */
  predicate Plain(o: Outcome) {
    o.Resp? && !o.cycle
  }

  /**
   * Any response without a cycle flag is the truth value of the goal, whatever the path, the depth,
   * the order in which sub-checks finished and the cached answers used.
   */
  lemma {:induction false} ResolvesSound(env: Env, g: Goal, visited: set<Goal>, depth: nat, o: Outcome)
    requires CacheSound(env)
    requires depth <= env.maxDepth && Resolves(env, g, visited, depth, o) && Plain(o)
    ensures Settles(env.w, g, o.allowed)
    decreases env.maxDepth - depth, |Unvisited(env.w, g, visited)|, 0
  {
    if SelfDefining(g) || !env.w.paths[PathOf(g)] {
      assert Derives(env.w, 1, g, o.allowed);
    } else {
      UnvisitedShrinks(env.w, g, visited);
      var n := RewritesSound(env, g, visited + {g}, depth, env.w.relations[(g.obj.typ, g.relation)].rewrite, o);
      assert Derives(env.w, n + 1, g, o.allowed);
    }
  }

  lemma {:induction false} RewritesSound(env: Env, g: Goal, visited: set<Goal>, depth: nat, rw: Rewrite, o: Outcome)
    returns (n: nat)
    requires CacheSound(env)
    requires depth < env.maxDepth && (g.obj.typ, g.relation) in env.w.relations
    requires Rewrites(env, g, visited, depth, rw, o) && Plain(o)
    ensures RewriteDerives(env.w, n, g, rw, o.allowed)
    decreases env.maxDepth - depth, |Unvisited(env.w, g, visited)|, 4, rw
  {
    match rw
    case This => n := DirectlySound(env, g, visited, depth, o);
    case Computed(relation) =>
      var child := g.(relation := relation);
      assert Unvisited(env.w, child, visited) == Unvisited(env.w, g, visited);
      ResolvesSound(env, child, visited, depth, o);
      n :| Derives(env.w, n, child, o.allowed);
    case TupleToUserset(tupleset, computed) =>
      var rows := env.w.Rows(g.obj, tupleset);
      n := ConsultsSound(env, g, rw, ParentTargets(env.w, Visible(rows), computed, g.user), EndsInError(rows), visited,
        depth, o);
    case Union(children) =>
      var outs :| MayUnion(outs, o) && Children(env, g, visited, depth, children, outs);
      n := UnionSound(env, g, visited, depth, children, outs, o);
    case Intersection(children) =>
      var outs :| MayIntersect(outs, o) && Children(env, g, visited, depth, children, outs);
      n := IntersectionSound(env, g, visited, depth, children, outs, o);
    case Difference(base, subtract) =>
      var b, s :| Rewrites(env, g, visited, depth, base, b) && Rewrites(env, g, visited, depth, subtract, s) &&
        MayExclude(b, s, o);
      n := DifferenceSound(env, g, visited, depth, rw, b, s, o);
  }

  lemma {:induction false} UnionSound(env: Env, g: Goal, visited: set<Goal>, depth: nat, children: seq<Rewrite>,
                                      outs: seq<Outcome>, o: Outcome)
    returns (n: nat)
    requires CacheSound(env)
    requires depth < env.maxDepth && (g.obj.typ, g.relation) in env.w.relations
    requires MayUnion(outs, o) && Children(env, g, visited, depth, children, outs) && Plain(o)
    ensures RewriteDerives(env.w, n, g, Union(children), o.allowed)
    decreases env.maxDepth - depth, |Unvisited(env.w, g, visited)|, 4, children, |children| + 1
  {
    UnionConfluent(outs, o);
    if o.allowed {
      var i :| 0 <= i < |outs| && outs[i] == o;
      n := RewritesSound(env, g, visited, depth, children[i], o);
    } else {
      AllDenied(outs, o);
      n := ChildrenSound(env, g, visited, depth, children, outs, false, |children|);
    }
  }

  lemma {:induction false} IntersectionSound(env: Env, g: Goal, visited: set<Goal>, depth: nat, children: seq<Rewrite>,
                                             outs: seq<Outcome>, o: Outcome)
    returns (n: nat)
    requires CacheSound(env)
    requires depth < env.maxDepth && (g.obj.typ, g.relation) in env.w.relations
    requires MayIntersect(outs, o) && Children(env, g, visited, depth, children, outs) && Plain(o)
    ensures RewriteDerives(env.w, n, g, Intersection(children), o.allowed)
    decreases env.maxDepth - depth, |Unvisited(env.w, g, visited)|, 4, children, |children| + 1
  {
    IntersectionOrders(outs, o);
    if children == [] {
      n := 0;
    } else if o.allowed {
      AllAllowed(outs, o);
      n := ChildrenSound(env, g, visited, depth, children, outs, true, |children|);
    } else {
      var i :| 0 <= i < |outs| && outs[i] == o;
      n := RewritesSound(env, g, visited, depth, children[i], o);
    }
  }

  lemma {:induction false} DifferenceSound(env: Env, g: Goal, visited: set<Goal>, depth: nat, rw: Rewrite, b: Outcome,
                                           s: Outcome, o: Outcome)
    returns (n: nat)
    requires CacheSound(env) && rw.Difference?
    requires depth < env.maxDepth && (g.obj.typ, g.relation) in env.w.relations
    requires Rewrites(env, g, visited, depth, rw.base, b) && Rewrites(env, g, visited, depth, rw.subtract, s)
    requires MayExclude(b, s, o) && Plain(o)
    ensures RewriteDerives(env.w, n, g, rw, o.allowed)
    decreases env.maxDepth - depth, |Unvisited(env.w, g, visited)|, 4, rw, 0
  {
    var base, subtract := rw.base, rw.subtract;
    RewritesCoherent(env, g, visited, depth, base, b);
    RewritesCoherent(env, g, visited, depth, subtract, s);
    ExclusionOutcomes(b, s, o);
    if o.allowed {
      var n1 := RewritesSound(env, g, visited, depth, base, b);
      var n2 := RewritesSound(env, g, visited, depth, subtract, s);
      n := n1 + n2;
      RewriteMonotone(env.w, n1, n, g, base, true);
      RewriteMonotone(env.w, n2, n, g, subtract, false);
    } else if b == DENIED {
      n := RewritesSound(env, g, visited, depth, base, b);
    } else {
      n := RewritesSound(env, g, visited, depth, subtract, s);
    }
  }

  lemma ExclusionOutcomes(b: Outcome, s: Outcome, o: Outcome)
    requires Coherent(b) && Coherent(s) && MayExclude(b, s, o) && Plain(o)
    ensures o.allowed ==> b == ALLOWED && s == DENIED
    ensures !o.allowed ==> b == DENIED || s == ALLOWED
  {
  }

  lemma AllAllowed(xs: seq<Outcome>, o: Outcome)
    requires IntersectionAny(xs, o) && o.Resp? && o.allowed && !o.cycle
    ensures xs != [] && forall i :: 0 <= i < |xs| ==> xs[i] == ALLOWED
  {
  }

  /** Children that all answered `b` are derivable within a common number of levels. */
  lemma {:induction false} ChildrenSound(env: Env, g: Goal, visited: set<Goal>, depth: nat, children: seq<Rewrite>,
                                         outs: seq<Outcome>, b: bool, k: nat)
    returns (n: nat)
    requires CacheSound(env)
    requires depth < env.maxDepth && (g.obj.typ, g.relation) in env.w.relations
    requires Children(env, g, visited, depth, children, outs) && k <= |children|
    requires forall i :: 0 <= i < |children| ==> outs[i] == Resp(b, false)
    ensures forall i :: 0 <= i < k ==> RewriteDerives(env.w, n, g, children[i], b)
    decreases env.maxDepth - depth, |Unvisited(env.w, g, visited)|, 4, children, k
  {
    if k == 0 {
      n := 0;
    } else {
      var n1 := ChildrenSound(env, g, visited, depth, children, outs, b, k - 1);
      var n2 := RewritesSound(env, g, visited, depth, children[k - 1], outs[k - 1]);
      n := n1 + n2;
      ChildrenMonotone(env.w, n1, n, g, children, b);
      RewriteMonotone(env.w, n2, n, g, children[k - 1], b);
    }
  }

  lemma {:induction false} DirectlySound(env: Env, g: Goal, visited: set<Goal>, depth: nat, o: Outcome) returns (n: nat)
    requires CacheSound(env)
    requires depth < env.maxDepth && (g.obj.typ, g.relation) in env.w.relations
    requires Directly(env, g, visited, depth, o) && Plain(o)
    ensures DirectlyDerives(env.w, n, g, o.allowed)
    decreases env.maxDepth - depth, 0, 3
  {
    var rel := env.w.relations[(g.obj.typ, g.relation)];
    var fixed := TupleOutcomes(env.w, rel, g);
    n := 0;
    if o.allowed && ALLOWED in fixed { return; }
    if HasUsersets(rel) {
      var u := UsersetsAnswer(env, g, visited, depth, o);
      var rows := UsersetRows(env.w, rel, g);
      n := ConsultsSound(env, g, This, UsersetTargets(Visible(rows), g.user), EndsInError(rows), visited, depth, u);
      UsersetsDerive(env.w, n, g, u, o);
    } else {
      UnionConfluent(fixed, o);
      if !o.allowed { AllDenied(fixed, o); }
    }
  }

  /** The answer of the handler for userset tuples that an unflagged answer rests on. */
  lemma UsersetsAnswer(env: Env, g: Goal, visited: set<Goal>, depth: nat, o: Outcome) returns (u: Outcome)
    requires depth < env.maxDepth && (g.obj.typ, g.relation) in env.w.relations
    requires HasUsersets(env.w.relations[(g.obj.typ, g.relation)])
    requires Directly(env, g, visited, depth, o) && Plain(o)
    requires o.allowed ==> ALLOWED !in TupleOutcomes(env.w, env.w.relations[(g.obj.typ, g.relation)], g)
    ensures var rows := UsersetRows(env.w, env.w.relations[(g.obj.typ, g.relation)], g);
      Consults(env, g, This, UsersetTargets(Visible(rows), g.user), EndsInError(rows), visited, depth, u)
    ensures Plain(u) && u.allowed == o.allowed
    ensures var fixed := TupleOutcomes(env.w, env.w.relations[(g.obj.typ, g.relation)], g);
      !o.allowed ==> forall i :: 0 <= i < |fixed| ==> fixed[i] == DENIED
  {
    var rel := env.w.relations[(g.obj.typ, g.relation)];
    var rows := UsersetRows(env.w, rel, g);
    u :| Consults(env, g, This, UsersetTargets(Visible(rows), g.user), EndsInError(rows), visited, depth, u) &&
      MayUnion(TupleOutcomes(env.w, rel, g) + [u], o);
    LastHandler(TupleOutcomes(env.w, rel, g), u, o);
  }

  lemma UsersetsDerive(w: World, n: nat, g: Goal, u: Outcome, o: Outcome)
    requires (g.obj.typ, g.relation) in w.relations && HasUsersets(w.relations[(g.obj.typ, g.relation)]) && Plain(u)
    requires Plain(o) && u.allowed == o.allowed
    requires var rows := UsersetRows(w, w.relations[(g.obj.typ, g.relation)], g);
      ConsultsDerive(w, n, g, This, UsersetTargets(Visible(rows), g.user), EndsInError(rows), u.allowed)
    requires var fixed := TupleOutcomes(w, w.relations[(g.obj.typ, g.relation)], g);
      !o.allowed ==> forall i :: 0 <= i < |fixed| ==> fixed[i] == DENIED
    ensures DirectlyDerives(w, n, g, o.allowed)
  {
  }

  /** The union of some outcomes with one more. */
  lemma LastHandler(fixed: seq<Outcome>, u: Outcome, o: Outcome)
    requires MayUnion(fixed + [u], o) && Plain(o)
    ensures o.allowed ==> o in fixed || o == u
    ensures !o.allowed ==> u == DENIED && forall i :: 0 <= i < |fixed| ==> fixed[i] == DENIED
  {
    UnionConfluent(fixed + [u], o);
    if !o.allowed {
      AllDenied(fixed + [u], o);
      assert (fixed + [u])[|fixed|] == u;
      assert forall i :: 0 <= i < |fixed| ==> (fixed + [u])[i] == fixed[i];
    }
  }

  lemma AllDenied(xs: seq<Outcome>, o: Outcome)
    requires UnionOf(xs, o) && o == DENIED
    ensures forall i :: 0 <= i < |xs| ==> xs[i] == DENIED
  {
  }

  /** What an unflagged answer to a dispatch says about the sub-outcomes. */
  lemma DispatchOutcomes(outs: seq<Outcome>, readFails: bool, o: Outcome)
    requires MayUnion(outs + (if readFails then [Err] else []), o) && Plain(o)
    ensures o.allowed ==> o in outs
    ensures !o.allowed ==> !readFails && forall i :: 0 <= i < |outs| ==> outs[i] == DENIED
  {
    var all := outs + (if readFails then [Err] else []);
    UnionConfluent(all, o);
    if !o.allowed {
      AllDenied(all, o);
      assert forall i :: 0 <= i < |outs| ==> all[i] == outs[i];
    }
  }

  lemma {:induction false} ConsultsSound(env: Env, g: Goal, leaf: Rewrite, targets: seq<Goal>, readFails: bool,
                                         visited: set<Goal>,
                                         depth: nat, o: Outcome)
    returns (n: nat)
    requires CacheSound(env)
    requires depth < env.maxDepth && Consults(env, g, leaf, targets, readFails, visited, depth, o) && Plain(o)
    ensures ConsultsDerive(env.w, n, g, leaf, targets, readFails, o.allowed)
    decreases env.maxDepth - depth, 0, 2
  {
    n := 0;
    if (g, leaf) !in env.w.fast { n := DispatchesSound(env, targets, readFails, visited, depth, o); }
  }

  lemma {:induction false} DispatchesSound(env: Env, targets: seq<Goal>, readFails: bool, visited: set<Goal>,
                                           depth: nat, o: Outcome)
    returns (n: nat)
    requires CacheSound(env)
    requires depth < env.maxDepth && Dispatches(env, targets, readFails, visited, depth, o) && Plain(o)
    ensures TargetsDerive(env.w, n, targets, readFails, o.allowed)
    decreases env.maxDepth - depth, 0, 1, |targets| + 1
  {
    var tail := if readFails then [Err] else [];
    var outs: seq<Outcome> :| |outs| == |targets| && MayUnion(outs + tail, o) &&
      forall i :: 0 <= i < |targets| ==> Dispatched(env, targets[i], visited, depth, outs[i]);
    DispatchOutcomes(outs, readFails, o);
    if o.allowed {
      var i :| 0 <= i < |outs| && outs[i] == o;
      n := DispatchedSound(env, targets[i], visited, depth, o);
    } else {
      n := AllDispatchedSound(env, targets, outs, visited, depth, |targets|);
    }
  }

  lemma {:induction false} DispatchedSound(env: Env, t: Goal, visited: set<Goal>, depth: nat, o: Outcome)
    returns (n: nat)
    requires CacheSound(env)
    requires depth < env.maxDepth && Dispatched(env, t, visited, depth, o) && Plain(o)
    ensures Derives(env.w, n, t, o.allowed)
    decreases env.maxDepth - depth, 0, 0
  {
    if Resolves(env, t, visited, depth + 1, o) { ResolvesSound(env, t, visited, depth + 1, o); }
    assert Settles(env.w, t, o.allowed);
    n :| Derives(env.w, n, t, o.allowed);
  }

  lemma {:induction false} AllDispatchedSound(env: Env, targets: seq<Goal>, outs: seq<Outcome>, visited: set<Goal>,
                                              depth: nat, k: nat)
    returns (n: nat)
    requires CacheSound(env) && depth < env.maxDepth && |outs| == |targets| && k <= |targets|
    requires forall i :: 0 <= i < |targets| ==>
      Dispatched(env, targets[i], visited, depth, outs[i]) && outs[i] == DENIED
    ensures forall i :: 0 <= i < k ==> Derives(env.w, n, targets[i], false)
    decreases env.maxDepth - depth, 0, 1, k
  {
    if k == 0 {
      n := 0;
    } else {
      var n1 := AllDispatchedSound(env, targets, outs, visited, depth, k - 1);
      var n2 := DispatchedSound(env, targets[k - 1], visited, depth, outs[k - 1]);
      n := n1 + n2;
      forall i | 0 <= i < k - 1
        ensures Derives(env.w, n, targets[i], false)
      {
        DerivesMonotone(env.w, n1, n, targets[i], false);
      }
      DerivesMonotone(env.w, n2, n, targets[k - 1], false);
    }
  }

  /** Two unflagged answers to the same goal agree, however each was obtained. */
  lemma UnflaggedAnswersAgree(env: Env, env': Env, g: Goal, visited: set<Goal>, visited': set<Goal>, depth: nat,
                              depth': nat, o: Outcome, o': Outcome)
    requires env.w == env'.w && CacheSound(env) && CacheSound(env')
    requires depth <= env.maxDepth && Resolves(env, g, visited, depth, o) && Plain(o)
    requires depth' <= env'.maxDepth && Resolves(env', g, visited', depth', o') && Plain(o')
    ensures o == o'
  {
    ResolvesSound(env, g, visited, depth, o);
    ResolvesSound(env', g, visited', depth', o');
    SettlesUnique(env.w, g, o.allowed, o'.allowed);
  }

  /** Nothing but `b` can be derived from the targets. */
  ghost predicate OnlyDerives(w: World, targets: seq<Goal>, readFails: bool, b: bool) {
    forall n: nat, c :: TargetsDerive(w, n, targets, readFails, c) ==> c == b
  }

  /**
   * Any unflagged answer of the slow path, which dispatches a check per target, is `b`, as nothing else can
   * be derived.
   */
  ghost predicate SlowAnswers(w: World, targets: seq<Goal>, readFails: bool, b: bool) {
    && OnlyDerives(w, targets, readFails, b)
    && forall env: Env, visited, depth: nat, o ::
         env.w == w && CacheSound(env) && depth < env.maxDepth &&
           Dispatches(env, targets, readFails, visited, depth, o) && Plain(o) ==>
           o.allowed == b
  }

  /** If nothing but `b` can be derived, the slow path answers nothing else. */
  lemma DerivedIsAnswered(w: World, targets: seq<Goal>, readFails: bool, b: bool)
    requires OnlyDerives(w, targets, readFails, b)
    ensures SlowAnswers(w, targets, readFails, b)
  {
    forall env: Env, visited, depth: nat, o | env.w == w && CacheSound(env) && depth < env.maxDepth &&
      Dispatches(env, targets, readFails, visited, depth, o) && Plain(o)
      ensures o.allowed == b
    {
      var n := DispatchesSound(env, targets, readFails, visited, depth, o);
      assert TargetsDerive(w, n, targets, readFails, o.allowed);
    }
  }
}
