/**
 * Without exclusion, a check that starts on an empty path decides the least fixpoint of the rewrite
 * rules, provided that the fast paths do.
 */
module Fixpoint {
  import opened Model
  import opened Reducers
  import opened Check
  import opened Soundness

  // ------------------------------------------------------------ the rules and their least fixpoint

  predicate NoDifference(rw: Rewrite) {
    match rw
    case This => true
    case Computed(_) => true
    case TupleToUserset(_, _) => true
    case Union(children) => forall i :: 0 <= i < |children| ==> NoDifference(children[i])
    case Intersection(children) => forall i :: 0 <= i < |children| ==> NoDifference(children[i])
    case Difference(_, _) => false
  }

  ghost predicate ExclusionFree(w: World) {
    forall k :: k in w.relations ==> NoDifference(w.relations[k].rewrite)
  }

  ghost predicate SomeIn(targets: seq<Goal>, s: iset<Goal>) {
    exists i :: 0 <= i < |targets| && targets[i] in s
  }

  /** One application of the rules: `g` follows from the goals in `s`. */
  ghost predicate Rule(w: World, s: iset<Goal>, g: Goal) {
    SelfDefining(g) ||
    ((g.obj.typ, g.relation) in w.relations && PathOf(g) in w.paths && w.paths[PathOf(g)] &&
     RewriteRule(w, s, g, w.relations[(g.obj.typ, g.relation)].rewrite))
  }

  ghost predicate RewriteRule(w: World, s: iset<Goal>, g: Goal, rw: Rewrite)
    requires (g.obj.typ, g.relation) in w.relations
  {
    match rw
    case This =>
      var rel := w.relations[(g.obj.typ, g.relation)];
      ALLOWED in TupleOutcomes(w, rel, g) ||
      (HasUsersets(rel) && SomeIn(UsersetTargets(Visible(UsersetRows(w, rel, g)), g.user), s))
    case Computed(relation) => g.(relation := relation) in s
    case TupleToUserset(tupleset, computed) =>
      SomeIn(ParentTargets(w, Visible(w.Rows(g.obj, tupleset)), computed, g.user), s)
    case Union(children) => exists i :: 0 <= i < |children| && RewriteRule(w, s, g, children[i])
    case Intersection(children) =>
      children != [] && forall i :: 0 <= i < |children| ==> RewriteRule(w, s, g, children[i])
    case Difference(_, _) => false
  }

  /** Some userset or parent of the leaf is in the set. */
  ghost predicate LeafHolds(w: World, s: iset<Goal>, g: Goal, leaf: Rewrite)
    requires (g.obj.typ, g.relation) in w.relations
  {
    SomeIn(LeafTargets(w, g, leaf), s)
  }

  /** The fast paths answer true exactly on the least fixpoint. The rules themselves do not look at their answers. */
  ghost predicate FastTruth(w: World) {
    forall g, leaf :: (g, leaf) in w.fast ==> FastTrue(w, g, leaf)
  }

  ghost predicate FastTrue(w: World, g: Goal, leaf: Rewrite)
    requires (g, leaf) in w.fast
  {
    (g.obj.typ, g.relation) in w.relations && !w.fast[(g, leaf)].Fails? ==>
      (w.fast[(g, leaf)].allowed <==> LeafHolds(w, Lfp(w), g, leaf))
  }

  /** The goals provable in at most `n` steps without using any goal of `avoid`. */
  ghost function Level(w: World, n: nat, avoid: set<Goal>): iset<Goal> {
    if n == 0 then iset{} else iset g | g !in avoid && Rule(w, Level(w, n - 1, avoid), g)
  }

  ghost predicate Provable(w: World, g: Goal) {
    exists n: nat :: g in Level(w, n, {})
  }

  /** The goals with a proof. */
  ghost function Lfp(w: World): iset<Goal> {
    iset g | Provable(w, g)
  }

  lemma {:induction false} RewriteRuleMonotone(w: World, s: iset<Goal>, t: iset<Goal>, g: Goal, rw: Rewrite)
    requires (g.obj.typ, g.relation) in w.relations && s <= t && RewriteRule(w, s, g, rw)
    ensures RewriteRule(w, t, g, rw)
  {
    match rw
    case This =>
    case Computed(_) =>
    case TupleToUserset(_, _) =>
    case Union(children) =>
      var i :| 0 <= i < |children| && RewriteRule(w, s, g, children[i]);
      RewriteRuleMonotone(w, s, t, g, children[i]);
    case Intersection(children) =>
      forall i | 0 <= i < |children|
        ensures RewriteRule(w, t, g, children[i])
      {
        RewriteRuleMonotone(w, s, t, g, children[i]);
      }
    case Difference(_, _) =>
  }

  lemma RuleMonotone(w: World, s: iset<Goal>, t: iset<Goal>, g: Goal)
    requires s <= t && Rule(w, s, g)
    ensures Rule(w, t, g)
  {
    if !SelfDefining(g) { RewriteRuleMonotone(w, s, t, g, w.relations[(g.obj.typ, g.relation)].rewrite); }
  }

  lemma {:induction false} LevelMonotone(w: World, n: nat, m: nat, avoid: set<Goal>)
    requires n <= m
    ensures Level(w, n, avoid) <= Level(w, m, avoid)
  {
    if n > 0 {
      LevelMonotone(w, n - 1, m - 1, avoid);
      forall g | g in Level(w, n, avoid) ensures g in Level(w, m, avoid) {
        RuleMonotone(w, Level(w, n - 1, avoid), Level(w, m - 1, avoid), g);
      }
    }
  }

  lemma {:induction false} LevelShrinks(w: World, n: nat, avoid: set<Goal>, more: set<Goal>)
    requires avoid <= more
    ensures Level(w, n, more) <= Level(w, n, avoid)
  {
    if n > 0 {
      LevelShrinks(w, n - 1, avoid, more);
      forall g | g in Level(w, n, more) ensures g in Level(w, n, avoid) {
        RuleMonotone(w, Level(w, n - 1, more), Level(w, n - 1, avoid), g);
      }
    }
  }

  /** Every set closed under the rules contains the least fixpoint. */
  lemma {:induction false} LfpIsLeast(w: World, s: iset<Goal>, n: nat)
    requires forall g :: Rule(w, s, g) ==> g in s
    ensures Level(w, n, {}) <= s
  {
    if n > 0 {
      LfpIsLeast(w, s, n - 1);
      forall g | g in Level(w, n, {}) ensures g in s { RuleMonotone(w, Level(w, n - 1, {}), s, g); }
    }
  }

  /** A rule application uses finitely many goals, so it already applies at some level. */
  lemma {:induction false} RewriteRuleCompact(w: World, g: Goal, rw: Rewrite) returns (n: nat)
    requires (g.obj.typ, g.relation) in w.relations && RewriteRule(w, Lfp(w), g, rw)
    ensures RewriteRule(w, Level(w, n, {}), g, rw)
    decreases rw
  {
    n := 0;
    match rw
    case This =>
      var rel := w.relations[(g.obj.typ, g.relation)];
      var targets := UsersetTargets(Visible(UsersetRows(w, rel, g)), g.user);
      if HasUsersets(rel) && SomeIn(targets, Lfp(w)) { n := SomeCompact(w, targets); }
    case Computed(relation) => n :| g.(relation := relation) in Level(w, n, {});
    case TupleToUserset(tupleset, computed) =>
      n := SomeCompact(w, ParentTargets(w, Visible(w.Rows(g.obj, tupleset)), computed, g.user));
    case Union(children) =>
      var i :| 0 <= i < |children| && RewriteRule(w, Lfp(w), g, children[i]);
      n := RewriteRuleCompact(w, g, children[i]);
    case Intersection(children) => n := AllCompact(w, g, children, |children|);
    case Difference(_, _) =>
  }

  lemma SomeCompact(w: World, targets: seq<Goal>) returns (n: nat)
    requires SomeIn(targets, Lfp(w))
    ensures SomeIn(targets, Level(w, n, {}))
  {
    var i :| 0 <= i < |targets| && targets[i] in Lfp(w);
    n :| targets[i] in Level(w, n, {});
  }

  lemma {:induction false} AllCompact(w: World, g: Goal, children: seq<Rewrite>, k: nat) returns (n: nat)
    requires (g.obj.typ, g.relation) in w.relations && k <= |children|
    requires forall i :: 0 <= i < |children| ==> RewriteRule(w, Lfp(w), g, children[i])
    ensures forall i :: 0 <= i < k ==> RewriteRule(w, Level(w, n, {}), g, children[i])
    decreases children, k
  {
    n := 0;
    if k > 0 {
      var n1 := AllCompact(w, g, children, k - 1);
      var n2 := RewriteRuleCompact(w, g, children[k - 1]);
      n := n1 + n2;
      LevelMonotone(w, n1, n, {});
      LevelMonotone(w, n2, n, {});
      forall i | 0 <= i < k ensures RewriteRule(w, Level(w, n, {}), g, children[i]) {
        RewriteRuleMonotone(w, Level(w, if i < k - 1 then n1 else n2, {}), Level(w, n, {}), g, children[i]);
      }
    }
  }

  /** The least fixpoint is closed under the rules. */
  lemma LfpIsClosed(w: World, g: Goal)
    requires Rule(w, Lfp(w), g)
    ensures g in Lfp(w)
  {
    if SelfDefining(g) {
      assert g in Level(w, 1, {});
    } else {
      var n := RewriteRuleCompact(w, g, w.relations[(g.obj.typ, g.relation)].rewrite);
      assert g in Level(w, n + 1, {});
    }
  }

  /** And it contains nothing that does not follow. */
  lemma LfpUnfolds(w: World, g: Goal)
    requires g in Lfp(w)
    ensures Rule(w, Lfp(w), g)
  {
    var n: nat :| g in Level(w, n, {});
    RuleMonotone(w, Level(w, n - 1, {}), Lfp(w), g);
  }

  // ------------------------------------------------------------ pruning a path loses nothing

  /** As long as `g` is not provable, proofs do not use it. */
  lemma {:induction false} Unused(w: World, n: nat, avoid: set<Goal>, g: Goal)
    requires forall m :: 0 <= m <= n ==> g !in Level(w, m, avoid)
    ensures Level(w, n, avoid) <= Level(w, n, avoid + {g})
  {
    if n > 0 {
      Unused(w, n - 1, avoid, g);
      forall h | h in Level(w, n, avoid) ensures h in Level(w, n, avoid + {g}) {
        RuleMonotone(w, Level(w, n - 1, avoid), Level(w, n - 1, avoid + {g}), h);
      }
    }
  }

  /** A goal whose rule never applies without using the goal itself has no proof at all. */
  lemma {:induction false} NotProvable(w: World, n: nat, avoid: set<Goal>, g: Goal)
    requires forall k: nat :: !Rule(w, Level(w, k, avoid + {g}), g)
    ensures forall m :: 0 <= m <= n ==> g !in Level(w, m, avoid)
  {
    if n > 0 {
      NotProvable(w, n - 1, avoid, g);
      Unused(w, n - 1, avoid, g);
      if Rule(w, Level(w, n - 1, avoid), g) {
        RuleMonotone(w, Level(w, n - 1, avoid), Level(w, n - 1, avoid + {g}), g);
      }
    }
  }

  // ------------------------------------------------------------ denials are justified

  /** Cached denials are goals outside the least fixpoint. */
  ghost predicate CacheDenies(env: Env) {
    forall t :: (t, false) in env.cached ==> t !in Lfp(env.w)
  }

  predicate Denies(o: Outcome) {
    o.Resp? && !o.allowed
  }

  /** A denial, flagged or not, means the goal has no proof that avoids the path. */
  lemma {:induction false} ResolvesDenies(env: Env, g: Goal, visited: set<Goal>, depth: nat, o: Outcome, n: nat)
    requires ExclusionFree(env.w) && FastTruth(env.w) && CacheDenies(env)
    requires depth <= env.maxDepth && Resolves(env, g, visited, depth, o) && Denies(o)
    ensures g !in Level(env.w, n, visited)
    decreases env.maxDepth - depth, |Unvisited(env.w, g, visited)|, 0
  {
    if g !in visited && !SelfDefining(g) {
      forall k: nat ensures !Rule(env.w, Level(env.w, k, visited + {g}), g) {
        if env.w.paths[PathOf(g)] {
          UnvisitedShrinks(env.w, g, visited);
          RewritesDenies(env, g, visited + {g}, depth, env.w.relations[(g.obj.typ, g.relation)].rewrite, o, k);
        }
      }
      NotProvable(env.w, n, visited, g);
    }
  }

  lemma {:induction false} RewritesDenies(env: Env, g: Goal, visited: set<Goal>, depth: nat, rw: Rewrite, o: Outcome,
                                          n: nat)
    requires ExclusionFree(env.w) && FastTruth(env.w) && CacheDenies(env) && NoDifference(rw)
    requires depth < env.maxDepth && (g.obj.typ, g.relation) in env.w.relations
    requires Rewrites(env, g, visited, depth, rw, o) && Denies(o)
    ensures !RewriteRule(env.w, Level(env.w, n, visited), g, rw)
    decreases env.maxDepth - depth, |Unvisited(env.w, g, visited)|, 4, rw
  {
    match rw
    case This => DirectlyDenies(env, g, visited, depth, o, n);
    case Computed(relation) =>
      var child := g.(relation := relation);
      assert Unvisited(env.w, child, visited) == Unvisited(env.w, g, visited);
      ResolvesDenies(env, child, visited, depth, o, n);
    case TupleToUserset(tupleset, computed) =>
      var rows := env.w.Rows(g.obj, tupleset);
      ConsultsDenies(env, g, rw, ParentTargets(env.w, Visible(rows), computed, g.user), EndsInError(rows), visited,
        depth, o, n);
    case Union(children) =>
      var outs :| MayUnion(outs, o) && Children(env, g, visited, depth, children, outs);
      UnionDenials(outs, o);
      forall i | 0 <= i < |children| ensures !RewriteRule(env.w, Level(env.w, n, visited), g, children[i]) {
        RewritesDenies(env, g, visited, depth, children[i], outs[i], n);
      }
    case Intersection(children) =>
      var outs :| MayIntersect(outs, o) && Children(env, g, visited, depth, children, outs);
      IntersectionOrders(outs, o);
      if children != [] {
        var i :| 0 <= i < |outs| && outs[i] == o;
        RewritesDenies(env, g, visited, depth, children[i], o, n);
      }
  }

  lemma UnionDenials(xs: seq<Outcome>, o: Outcome)
    requires MayUnion(xs, o) && Denies(o)
    ensures forall i :: 0 <= i < |xs| ==> Denies(xs[i])
  {
    UnionConfluent(xs, o);
    forall i | 0 <= i < |xs| ensures Denies(xs[i]) { assert xs[i] in xs; }
  }

  lemma {:induction false} DirectlyDenies(env: Env, g: Goal, visited: set<Goal>, depth: nat, o: Outcome, n: nat)
    requires ExclusionFree(env.w) && FastTruth(env.w) && CacheDenies(env)
    requires depth < env.maxDepth && (g.obj.typ, g.relation) in env.w.relations
    requires Directly(env, g, visited, depth, o) && Denies(o)
    ensures !RewriteRule(env.w, Level(env.w, n, visited), g, This)
    decreases env.maxDepth - depth, 0, 3
  {
    var rel := env.w.relations[(g.obj.typ, g.relation)];
    var rows := UsersetRows(env.w, rel, g);
    if HasUsersets(rel) {
      var u := HandlerDenies(env, g, visited, depth, o);
      ConsultsDenies(env, g, This, UsersetTargets(Visible(rows), g.user), EndsInError(rows), visited, depth, u, n);
    } else {
      UnionDenials(TupleOutcomes(env.w, rel, g), o);
    }
    NoDirectRule(env.w, Level(env.w, n, visited), g);
  }

  lemma NoDirectRule(w: World, s: iset<Goal>, g: Goal)
    requires (g.obj.typ, g.relation) in w.relations
    requires ALLOWED !in TupleOutcomes(w, w.relations[(g.obj.typ, g.relation)], g)
    requires var rel := w.relations[(g.obj.typ, g.relation)];
      HasUsersets(rel) ==> !SomeIn(UsersetTargets(Visible(UsersetRows(w, rel, g)), g.user), s)
    ensures !RewriteRule(w, s, g, This)
  {
  }

  /** Behind a denial of the direct check is one of its handler for userset tuples. */
  lemma HandlerDenies(env: Env, g: Goal, visited: set<Goal>, depth: nat, o: Outcome) returns (u: Outcome)
    requires depth < env.maxDepth && (g.obj.typ, g.relation) in env.w.relations
    requires Directly(env, g, visited, depth, o) && Denies(o) && HasUsersets(env.w.relations[(g.obj.typ, g.relation)])
    ensures var rel := env.w.relations[(g.obj.typ, g.relation)];
      var rows := UsersetRows(env.w, rel, g);
      && Consults(env, g, This, UsersetTargets(Visible(rows), g.user), EndsInError(rows), visited, depth, u)
      && Denies(u) && ALLOWED !in TupleOutcomes(env.w, rel, g)
  {
    var rel := env.w.relations[(g.obj.typ, g.relation)];
    var rows := UsersetRows(env.w, rel, g);
    var fixed := TupleOutcomes(env.w, rel, g);
    u :| Consults(env, g, This, UsersetTargets(Visible(rows), g.user), EndsInError(rows), visited, depth, u) &&
      MayUnion(fixed + [u], o);
    LastDenies(fixed, u, o);
  }

  lemma LastDenies(fixed: seq<Outcome>, u: Outcome, o: Outcome)
    requires MayUnion(fixed + [u], o) && Denies(o)
    ensures Denies(u) && ALLOWED !in fixed
  {
    UnionDenials(fixed + [u], o);
    assert (fixed + [u])[|fixed|] == u;
    assert forall i :: 0 <= i < |fixed| ==> (fixed + [u])[i] == fixed[i];
  }

  lemma {:induction false} ConsultsDenies(env: Env, g: Goal, leaf: Rewrite, targets: seq<Goal>, readFails: bool,
                                          visited: set<Goal>,
                                          depth: nat, o: Outcome, n: nat)
    requires ExclusionFree(env.w) && FastTruth(env.w) && CacheDenies(env)
    requires (g.obj.typ, g.relation) in env.w.relations
    requires (LeafHolds(env.w, Lfp(env.w), g, leaf) <==> SomeIn(targets, Lfp(env.w)))
    requires depth < env.maxDepth && Consults(env, g, leaf, targets, readFails, visited, depth, o) && Denies(o)
    ensures !SomeIn(targets, Level(env.w, n, visited))
    decreases env.maxDepth - depth, 0, 2
  {
    if (g, leaf) in env.w.fast {
      assert FastTrue(env.w, g, leaf);
      LevelShrinks(env.w, n, {}, visited);
    } else {
      DispatchesDenies(env, targets, readFails, visited, depth, o, n);
    }
  }

  lemma {:induction false} DispatchesDenies(env: Env, targets: seq<Goal>, readFails: bool, visited: set<Goal>,
                                            depth: nat, o: Outcome, n: nat)
    requires ExclusionFree(env.w) && FastTruth(env.w) && CacheDenies(env)
    requires depth < env.maxDepth && Dispatches(env, targets, readFails, visited, depth, o) && Denies(o)
    ensures !SomeIn(targets, Level(env.w, n, visited))
    decreases env.maxDepth - depth, 0, 1
  {
    var tail := if readFails then [Err] else [];
    var outs: seq<Outcome> :| |outs| == |targets| && MayUnion(outs + tail, o) &&
      forall i :: 0 <= i < |targets| ==> Dispatched(env, targets[i], visited, depth, outs[i]);
    UnionDenials(outs + tail, o);
    forall i | 0 <= i < |targets| ensures targets[i] !in Level(env.w, n, visited) {
      assert (outs + tail)[i] == outs[i];
      if Resolves(env, targets[i], visited, depth + 1, outs[i]) {
        ResolvesDenies(env, targets[i], visited, depth + 1, outs[i], n);
      } else {
        LevelShrinks(env.w, n, {}, visited);
      }
    }
  }

  // ------------------------------------------------------------ derivations and the least fixpoint

  lemma {:induction false} DerivesProves(w: World, n: nat, g: Goal)
    requires ExclusionFree(w) && FastTruth(w) && Derives(w, n, g, true)
    ensures g in Lfp(w)
    decreases n, 0
  {
    if !SelfDefining(g) { RewriteProves(w, n - 1, g, w.relations[(g.obj.typ, g.relation)].rewrite); }
    LfpIsClosed(w, g);
  }

  lemma {:induction false} RewriteProves(w: World, n: nat, g: Goal, rw: Rewrite)
    requires ExclusionFree(w) && FastTruth(w) && NoDifference(rw) && (g.obj.typ, g.relation) in w.relations
    requires RewriteDerives(w, n, g, rw, true)
    ensures RewriteRule(w, Lfp(w), g, rw)
    decreases n, 4, rw
  {
    match rw
    case This =>
      var rel := w.relations[(g.obj.typ, g.relation)];
      var rows := UsersetRows(w, rel, g);
      var targets := UsersetTargets(Visible(rows), g.user);
      if ALLOWED !in TupleOutcomes(w, rel, g) { ConsultsProve(w, n, g, rw, targets, EndsInError(rows)); }
    case Computed(relation) => DerivesProves(w, n, g.(relation := relation));
    case TupleToUserset(tupleset, computed) =>
      var rows := w.Rows(g.obj, tupleset);
      ConsultsProve(w, n, g, rw, ParentTargets(w, Visible(rows), computed, g.user), EndsInError(rows));
    case Union(children) =>
      var i :| 0 <= i < |children| && RewriteDerives(w, n, g, children[i], true);
      RewriteProves(w, n, g, children[i]);
    case Intersection(children) =>
      forall i | 0 <= i < |children|
        ensures RewriteRule(w, Lfp(w), g, children[i])
      {
        RewriteProves(w, n, g, children[i]);
      }
  }

  lemma {:induction false} ConsultsProve(w: World, n: nat, g: Goal, leaf: Rewrite, targets: seq<Goal>, readFails: bool)
    requires ExclusionFree(w) && FastTruth(w) && ConsultsDerive(w, n, g, leaf, targets, readFails, true)
    requires (g.obj.typ, g.relation) in w.relations && (LeafHolds(w, Lfp(w), g, leaf) <==> SomeIn(targets, Lfp(w)))
    ensures SomeIn(targets, Lfp(w))
    decreases n, 2
  {
    if (g, leaf) in w.fast {
      assert FastTrue(w, g, leaf);
    } else {
      var i :| 0 <= i < |targets| && Derives(w, n, targets[i], true);
      DerivesProves(w, n, targets[i]);
    }
  }

  lemma {:induction false} DerivesRefutes(w: World, n: nat, g: Goal)
    requires ExclusionFree(w) && FastTruth(w) && Derives(w, n, g, false)
    ensures g !in Lfp(w)
    decreases n, 0
  {
    if w.paths[PathOf(g)] { RewriteRefutes(w, n - 1, g, w.relations[(g.obj.typ, g.relation)].rewrite); }
    if g in Lfp(w) { LfpUnfolds(w, g); }
  }

  lemma {:induction false} RewriteRefutes(w: World, n: nat, g: Goal, rw: Rewrite)
    requires ExclusionFree(w) && FastTruth(w) && NoDifference(rw) && (g.obj.typ, g.relation) in w.relations
    requires RewriteDerives(w, n, g, rw, false)
    ensures !RewriteRule(w, Lfp(w), g, rw)
    decreases n, 4, rw
  {
    match rw
    case This =>
      var rel := w.relations[(g.obj.typ, g.relation)];
      var rows := UsersetRows(w, rel, g);
      if HasUsersets(rel) { ConsultsRefute(w, n, g, rw, UsersetTargets(Visible(rows), g.user), EndsInError(rows)); }
    case Computed(relation) => DerivesRefutes(w, n, g.(relation := relation));
    case TupleToUserset(tupleset, computed) =>
      var rows := w.Rows(g.obj, tupleset);
      ConsultsRefute(w, n, g, rw, ParentTargets(w, Visible(rows), computed, g.user), EndsInError(rows));
    case Union(children) =>
      forall i | 0 <= i < |children|
        ensures !RewriteRule(w, Lfp(w), g, children[i])
      {
        RewriteRefutes(w, n, g, children[i]);
      }
    case Intersection(children) =>
      if children != [] {
        var i :| 0 <= i < |children| && RewriteDerives(w, n, g, children[i], false);
        RewriteRefutes(w, n, g, children[i]);
      }
  }

  lemma {:induction false} ConsultsRefute(w: World, n: nat, g: Goal, leaf: Rewrite, targets: seq<Goal>, readFails: bool)
    requires ExclusionFree(w) && FastTruth(w) && ConsultsDerive(w, n, g, leaf, targets, readFails, false)
    requires (g.obj.typ, g.relation) in w.relations && (LeafHolds(w, Lfp(w), g, leaf) <==> SomeIn(targets, Lfp(w)))
    ensures !SomeIn(targets, Lfp(w))
    decreases n, 2
  {
    if (g, leaf) in w.fast {
      assert FastTrue(w, g, leaf);
    } else {
      forall i | 0 <= i < |targets| ensures targets[i] !in Lfp(w) { DerivesRefutes(w, n, targets[i]); }
    }
  }

  /** What has been derived agrees with the least fixpoint. */
  lemma DerivedIsTruth(w: World, g: Goal, b: bool)
    requires ExclusionFree(w) && FastTruth(w) && Settles(w, g, b)
    ensures b <==> g in Lfp(w)
  {
    var n :| Derives(w, n, g, b);
    if b { DerivesProves(w, n, g); } else { DerivesRefutes(w, n, g); }
  }

  /**
   * In a model without exclusion, a check that starts on an empty path and returns no error answers
   * true exactly on the least fixpoint of the rewrite rules, flagged or not, with any sound cache and
   * whichever leaves are answered by fast paths, as long as those answer their leaves truthfully.
   */
  lemma CheckDecidesLfp(env: Env, g: Goal, depth: nat, o: Outcome)
    requires ExclusionFree(env.w) && FastTruth(env.w) && CacheSound(env)
    requires depth <= env.maxDepth && Resolves(env, g, {}, depth, o) && o.Resp?
    ensures o.allowed <==> g in Lfp(env.w)
  {
    if o.allowed {
      ResolvesCoherent(env, g, {}, depth, o);
      ResolvesSound(env, g, {}, depth, o);
      DerivedIsTruth(env.w, g, true);
    } else {
      forall t | (t, false) in env.cached ensures t !in Lfp(env.w) { DerivedIsTruth(env.w, t, false); }
      forall n: nat ensures g !in Level(env.w, n, {}) { ResolvesDenies(env, g, {}, depth, o, n); }
    }
  }
}
