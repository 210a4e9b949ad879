/**
 * The recursive fast path agrees with the recursive definition of the relation, as far as the objects it
 * passes through are those the definition refers to.
 */
module RecursiveMeaning {
  import opened IteratorStreams
  import opened Model
  import opened Reducers
  import opened Check
  import opened Soundness
  import opened Fixpoint
  import opened FastPath
  import opened FastMeaning
  import opened FastFixpoint
  import opened TwoSided
  import opened FastTwoSided
  import opened RecursiveMatch

  // ------------------------------------------------------------ where the recursive fast path is used

  /** The parent's type does not define the relation, or the user has no path to it. */
  predicate LeadsNowhere(sc: Scope, r: string, typ: string) {
    SkipsParent(sc.w, typ, r) || NoPath(sc, r, typ)
  }

  /** The leaf refers back to the relation on the same type; whatever else it admits leads nowhere for the user. */
  ghost predicate RecursiveLeaf(sc: Scope, r: string, leaf: Rewrite)
    requires (sc.typ, r) in sc.w.relations
  {
    match leaf
    case TupleToUserset(tupleset, computed) =>
      && computed == r && (sc.typ, tupleset) in sc.w.relations
      && forall x :: x in sc.w.relations[(sc.typ, tupleset)].restrictions ==>
           x.Direct? && (x.typ == sc.typ || LeadsNowhere(sc, r, x.typ))
    case This =>
      forall x :: x in sc.w.relations[(sc.typ, r)].restrictions && x.Userset? ==>
        x == Userset(sc.typ, r) || NoPath(sc, x.relation, x.typ)
    case _ => false
  }

  /** A union, possibly nested, of the recursive leaf and operands of weight one. */
  ghost predicate Recursive(sc: Scope, r: string, rw: Rewrite, leaf: Rewrite)
    requires InScope(sc, r, rw) && (sc.typ, r) in sc.w.relations
    decreases rw
  {
    || rw == leaf
    || (if rw.Union? then forall i :: 0 <= i < |rw.children| ==> Recursive(sc, r, rw.children[i], leaf)
         else WeightOne(sc, r, rw))
  }

  ghost predicate Contains(rw: Rewrite, leaf: Rewrite) {
    rw == leaf || (rw.Union? && exists i :: 0 <= i < |rw.children| && Contains(rw.children[i], leaf))
  }

  /** All tuples are valid, and no type name contains a `:`. */
  ghost predicate ValidWorld(w: World) {
    && (forall o, s :: CleanRows(w, o, s))
    && (forall k, x :: k in w.relations && x in w.relations[k].restrictions ==> ':' !in x.typ)
  }

  ghost predicate RecursiveReady(sc: Scope, r: string, leaf: Rewrite) {
    && (sc.typ, r) in sc.w.relations && RecursiveLeaf(sc, r, leaf)
    && PlainUser(sc) && ValidWorld(sc.w) && ':' !in sc.typ && WellFormedAll(sc) && ListsTyped(sc)
    && InScope(sc, r, RewriteOf(sc, r)) && InScope(sc, r, leaf)
    && PathTo(sc, r, sc.typ) in sc.w.paths && sc.w.paths[PathTo(sc, r, sc.typ)]
    && Recursive(sc, r, RewriteOf(sc, r), leaf) && Contains(RewriteOf(sc, r), leaf)
  }

  /** The check that dispatches instead, with complete leaf reads to compare the fast path with. */
  ghost predicate SlowReady(sc: Scope, r: string, leaf: Rewrite) {
    RecursiveReady(sc, r, leaf) && ListsAll(sc) && NoFast(sc, r, leaf)
  }

  /** The relation whose tuples the leaf reads. */
  function From(r: string, leaf: Rewrite): string {
    if leaf.TupleToUserset? then leaf.tupleset else r
  }

  /** The tuples the leaf reads for one object. */
  function LeafRows(sc: Scope, r: string, leaf: Rewrite, o: Object): seq<Row>
    requires (sc.typ, r) in sc.w.relations
  {
    if leaf.TupleToUserset? then sc.w.Rows(o, leaf.tupleset)
    else UsersetRows(sc.w, sc.w.relations[(sc.typ, r)], Goal(o, r, sc.user))
  }

  /** The subproblems that checking the leaf object by object dispatches. */
  function TargetsOf(sc: Scope, r: string, leaf: Rewrite, o: Object): seq<Goal>
    requires (sc.typ, r) in sc.w.relations
  {
    var visible := Visible(LeafRows(sc, r, leaf, o));
    if leaf.TupleToUserset? then ParentTargets(sc.w, visible, leaf.computed, sc.user)
    else UsersetTargets(visible, sc.user)
  }

  /** The tuple names an object; a userset or a wildcard has no tuples of its own and is related to no user. */
  predicate NamesObject(row: Row) {
    row.user.relation == "" && row.user.obj.id != "*"
  }

  /** The tuples by which the search passes from one object, of whatever type, to others. */
  function StepRows(sc: Scope, r: string, leaf: Rewrite, o: Object): seq<Row>
    requires (sc.typ, r) in sc.w.relations
  {
    if leaf.TupleToUserset? then Select(sc.w.Rows(o, leaf.tupleset), NamesObject) else LeafRows(sc, r, leaf, o)
  }

  function Steps(sc: Scope, r: string, leaf: Rewrite, o: Object): seq<Row>
    requires (sc.typ, r) in sc.w.relations
  {
    Visible(StepRows(sc, r, leaf, o))
  }

  /** The tuple refers back to the relation itself. */
  predicate Own(sc: Scope, r: string, leaf: Rewrite, row: Row) {
    row.user.obj.typ == sc.typ && (leaf.This? ==> row.user.relation == r)
  }

  ghost predicate InBase(sc: Scope, r: string, o: Object)
    requires (sc.typ, r) in sc.w.relations && InScope(sc, r, RewriteOf(sc, r))
  {
    o.typ == sc.typ && Member(sc, r, RewriteOf(sc, r), ObjectString(o))
  }

  /** Following at most `n + 1` tuples, only own ones if `own`, leads to an object of the base. */
  ghost predicate Finds(sc: Scope, r: string, leaf: Rewrite, o: Object, own: bool, n: nat)
    requires (sc.typ, r) in sc.w.relations && InScope(sc, r, RewriteOf(sc, r))
    decreases n
  {
    var steps := Steps(sc, r, leaf, o);
    exists i :: 0 <= i < |steps| && (own ==> Own(sc, r, leaf, steps[i])) &&
      (InBase(sc, r, steps[i].user.obj) || (n > 0 && Finds(sc, r, leaf, steps[i].user.obj, own, n - 1)))
  }

  /** What the recursive definition asks for: a parent, a parent's parent and so on that is in the base. */
  ghost predicate OwnFinds(sc: Scope, r: string, leaf: Rewrite, o: Object)
    requires (sc.typ, r) in sc.w.relations && InScope(sc, r, RewriteOf(sc, r))
  {
    exists n: nat :: Finds(sc, r, leaf, o, true, n)
  }

  /** What the search looks for: any object in the base, whatever the tuples on the way. */
  ghost predicate SearchFinds(sc: Scope, r: string, leaf: Rewrite, o: Object)
    requires (sc.typ, r) in sc.w.relations && InScope(sc, r, RewriteOf(sc, r))
  {
    exists n: nat :: Finds(sc, r, leaf, o, false, n)
  }

  // ------------------------------------------------------------ one level of the recursion

  ghost predicate SomeOwnDerives(sc: Scope, r: string, leaf: Rewrite, o: Object, n: nat)
    requires (sc.typ, r) in sc.w.relations
  {
    var steps := Steps(sc, r, leaf, o);
    exists i :: 0 <= i < |steps| && Own(sc, r, leaf, steps[i]) &&
      Derives(sc.w, n, Goal(steps[i].user.obj, r, sc.user), true)
  }

  ghost predicate AllOwnRefuted(sc: Scope, r: string, leaf: Rewrite, o: Object, n: nat)
    requires (sc.typ, r) in sc.w.relations
  {
    var steps := Steps(sc, r, leaf, o);
    forall i :: 0 <= i < |steps| && Own(sc, r, leaf, steps[i]) ==>
      Derives(sc.w, n, Goal(steps[i].user.obj, r, sc.user), false)
  }

  /** A tuple read for an object of the type is either own or leads nowhere. */
  lemma TargetOwn(sc: Scope, r: string, leaf: Rewrite, o: Object, row: Row, n: nat)
    requires SlowReady(sc, r, leaf) && o.typ == sc.typ && row in Visible(LeafRows(sc, r, leaf, o))
    requires leaf.TupleToUserset? ==> !SkipsParent(sc.w, row.user.obj.typ, r)
    requires Derives(sc.w, n, Goal(row.user.obj, if leaf.TupleToUserset? then r else row.user.relation, sc.user), true)
    ensures row in Steps(sc, r, leaf, o) && Own(sc, r, leaf, row)
  {
    assert CleanRows(sc.w, o, From(r, leaf));
    assert RowTyped(sc.w.relations[(sc.typ, From(r, leaf))], row);
    var target := Goal(row.user.obj, if leaf.TupleToUserset? then r else row.user.relation, sc.user);
    DerivesConsistent(sc.w, n, target);
    if NoPath(sc, target.relation, target.obj.typ) { NoPathDerives(sc, target, n); }
  }

  /** If dispatching derives true, it is because of an own tuple. */
  lemma TargetsBelow(sc: Scope, r: string, leaf: Rewrite, o: Object, n: nat)
    requires SlowReady(sc, r, leaf) && o.typ == sc.typ
    requires TargetsDerive(sc.w, n, TargetsOf(sc, r, leaf, o), EndsInError(LeafRows(sc, r, leaf, o)), true)
    ensures SomeOwnDerives(sc, r, leaf, o, n)
  {
    var targets, visible := TargetsOf(sc, r, leaf, o), Visible(LeafRows(sc, r, leaf, o));
    var k :| 0 <= k < |targets| && Derives(sc.w, n, targets[k], true);
    var i := DispatchedRow(sc, r, leaf, o, k);
    assert visible[i] in visible;
    TargetOwn(sc, r, leaf, o, visible[i], n);
    OwnDerives(sc, r, leaf, o, visible[i], n);
  }

  lemma OwnDerives(sc: Scope, r: string, leaf: Rewrite, o: Object, row: Row, n: nat)
    requires (sc.typ, r) in sc.w.relations && row in Steps(sc, r, leaf, o) && Own(sc, r, leaf, row)
    requires Derives(sc.w, n, Goal(row.user.obj, r, sc.user), true)
    ensures SomeOwnDerives(sc, r, leaf, o, n)
  {
  }

  lemma DispatchedRow(sc: Scope, r: string, leaf: Rewrite, o: Object, k: nat) returns (i: nat)
    requires (sc.typ, r) in sc.w.relations && RecursiveLeaf(sc, r, leaf) && k < |TargetsOf(sc, r, leaf, o)|
    ensures var visible := Visible(LeafRows(sc, r, leaf, o));
      && i < |visible| && (leaf.TupleToUserset? ==> !SkipsParent(sc.w, visible[i].user.obj.typ, r))
      && TargetsOf(sc, r, leaf, o)[k] == Goal(visible[i].user.obj, if leaf.TupleToUserset? then r
           else visible[i].user.relation, sc.user)
  {
    var targets, visible := TargetsOf(sc, r, leaf, o), Visible(LeafRows(sc, r, leaf, o));
    if leaf.TupleToUserset? {
      assert targets[k] in targets;
      i :| 0 <= i < |visible| && targets[k] == Goal(visible[i].user.obj, r, sc.user) &&
        !SkipsParent(sc.w, visible[i].user.obj.typ, r);
    } else {
      i := k;
    }
  }

  /** Every own tuple is dispatched. */
  lemma OwnDispatched(sc: Scope, r: string, leaf: Rewrite, o: Object, i: nat)
    requires (sc.typ, r) in sc.w.relations && RecursiveLeaf(sc, r, leaf)
    requires i < |Steps(sc, r, leaf, o)| && Own(sc, r, leaf, Steps(sc, r, leaf, o)[i])
    ensures Goal(Steps(sc, r, leaf, o)[i].user.obj, r, sc.user) in TargetsOf(sc, r, leaf, o)
  {
    var visible := Visible(LeafRows(sc, r, leaf, o));
    var row := Steps(sc, r, leaf, o)[i];
    assert row in Steps(sc, r, leaf, o) && row in visible;
    var j :| 0 <= j < |visible| && visible[j] == row;
    if leaf.TupleToUserset? {
      assert !SkipsParent(sc.w, row.user.obj.typ, r);
    } else {
      assert TargetsOf(sc, r, leaf, o)[j] == Goal(row.user.obj, r, sc.user);
    }
  }

  /** Where no fast path is chosen, the leaf derives what dispatching derives. */
  lemma LeafDispatches(sc: Scope, r: string, leaf: Rewrite, o: Object, n: nat, b: bool)
    requires SlowReady(sc, r, leaf) && o.typ == sc.typ
    ensures var targets, fails := TargetsOf(sc, r, leaf, o), EndsInError(LeafRows(sc, r, leaf, o));
      ConsultsDerive(sc.w, n, Goal(o, r, sc.user), leaf, targets, fails, b) <==>
        TargetsDerive(sc.w, n, targets, fails, b)
  {
    assert (Goal(o, r, sc.user), leaf) !in sc.w.fast;
  }

  /** If the leaf is derived true, a tuple matches or an own tuple leads to the relation. */
  lemma LeafBelow(sc: Scope, r: string, leaf: Rewrite, o: Object, n: nat)
    requires SlowReady(sc, r, leaf) && o.typ == sc.typ && RewriteDerives(sc.w, n, Goal(o, r, sc.user), leaf, true)
    ensures Member(sc, r, leaf, ObjectString(o)) || SomeOwnDerives(sc, r, leaf, o, n)
  {
    if leaf.This? {
      assert CleanRows(sc.w, o, r);
      ListedMember(sc, o, r);
      MatchAllows(sc.w, Goal(o, r, sc.user));
    }
    LeafDispatches(sc, r, leaf, o, n, true);
    if TargetsDerive(sc.w, n, TargetsOf(sc, r, leaf, o), EndsInError(LeafRows(sc, r, leaf, o)), true) {
      TargetsBelow(sc, r, leaf, o, n);
    }
  }

  /** If dispatching derives false, no own tuple leads to the relation. */
  lemma TargetsRefuted(sc: Scope, r: string, leaf: Rewrite, o: Object, n: nat)
    requires SlowReady(sc, r, leaf)
    requires TargetsDerive(sc.w, n, TargetsOf(sc, r, leaf, o), EndsInError(LeafRows(sc, r, leaf, o)), false)
    ensures AllOwnRefuted(sc, r, leaf, o, n)
  {
    var steps, targets := Steps(sc, r, leaf, o), TargetsOf(sc, r, leaf, o);
    forall i | 0 <= i < |steps| && Own(sc, r, leaf, steps[i])
      ensures Derives(sc.w, n, Goal(steps[i].user.obj, r, sc.user), false)
    {
      OwnDispatched(sc, r, leaf, o, i);
      var k :| 0 <= k < |targets| && targets[k] == Goal(steps[i].user.obj, r, sc.user);
    }
  }

  /** If the leaf is derived false, no tuple matches and no own tuple leads to the relation. */
  lemma LeafRefuted(sc: Scope, r: string, leaf: Rewrite, o: Object, n: nat)
    requires SlowReady(sc, r, leaf) && o.typ == sc.typ && RewriteDerives(sc.w, n, Goal(o, r, sc.user), leaf, false)
    ensures !Member(sc, r, leaf, ObjectString(o)) && AllOwnRefuted(sc, r, leaf, o, n)
  {
    if leaf.This? {
      assert CleanRows(sc.w, o, r);
      ListedMember(sc, o, r);
      MatchAllows(sc.w, Goal(o, r, sc.user));
      StepsAreUsersets(sc, r, o);
      if !HasUsersets(sc.w.relations[(sc.typ, r)]) { return; }
    }
    LeafDispatches(sc, r, leaf, o, n, false);
    TargetsRefuted(sc, r, leaf, o, n);
  }

  lemma StepsAreUsersets(sc: Scope, r: string, o: Object)
    requires (sc.typ, r) in sc.w.relations
    ensures Steps(sc, r, This, o) == [] || HasUsersets(sc.w.relations[(sc.typ, r)])
  {
    var steps := Steps(sc, r, This, o);
    if steps != [] {
      assert steps[0] in steps;
      assert Userset(steps[0].user.obj.typ, steps[0].user.relation) in sc.w.relations[(sc.typ, r)].restrictions;
    }
  }

  /** If the rewrite is derived true, its weight-one part holds or its recursive leaf is derived. */
  lemma {:induction false} RewriteBelow(sc: Scope, r: string, rw: Rewrite, leaf: Rewrite, o: Object, n: nat)
    requires SlowReady(sc, r, leaf) && o.typ == sc.typ
    requires InScope(sc, r, rw) && WellFormed(sc, rw) && Recursive(sc, r, rw, leaf)
    requires RewriteDerives(sc.w, n, Goal(o, r, sc.user), rw, true)
    ensures Member(sc, r, rw, ObjectString(o)) || RewriteDerives(sc.w, n, Goal(o, r, sc.user), leaf, true)
    decreases rw
  {
    var g := Goal(o, r, sc.user);
    if rw == leaf {
    } else if rw.Union? {
      var i :| 0 <= i < |rw.children| && RewriteDerives(sc.w, n, g, rw.children[i], true);
      RewriteBelow(sc, r, rw.children[i], leaf, o, n);
    } else {
      DerivedIffMember(sc, r, rw, o, n, true);
    }
  }

  /** If it is derived false, neither is the case. */
  lemma {:induction false} RewriteRefuted(sc: Scope, r: string, rw: Rewrite, leaf: Rewrite, o: Object, n: nat)
    requires SlowReady(sc, r, leaf) && o.typ == sc.typ
    requires InScope(sc, r, rw) && WellFormed(sc, rw) && Recursive(sc, r, rw, leaf)
    requires RewriteDerives(sc.w, n, Goal(o, r, sc.user), rw, false)
    ensures !Member(sc, r, rw, ObjectString(o))
    ensures (Contains(rw, leaf) ==> RewriteDerives(sc.w, n, Goal(o, r, sc.user), leaf, false))
    decreases rw
  {
    if rw == leaf {
      LeafRefuted(sc, r, leaf, o, n);
    } else if rw.Union? {
      forall i | 0 <= i < |rw.children|
        ensures !Member(sc, r, rw.children[i], ObjectString(o))
        ensures (Contains(rw.children[i], leaf) ==> RewriteDerives(sc.w, n, Goal(o, r, sc.user), leaf, false))
      {
        RewriteRefuted(sc, r, rw.children[i], leaf, o, n);
      }
    } else {
      DerivedIffMember(sc, r, rw, o, n, false);
    }
  }

  lemma {:induction false} LeafInBase(sc: Scope, r: string, rw: Rewrite, leaf: Rewrite, x: string)
    requires InScope(sc, r, rw) && InScope(sc, r, leaf) && Contains(rw, leaf)
    requires Member(sc, r, leaf, x)
    ensures Member(sc, r, rw, x)
    decreases rw
  {
    if rw != leaf {
      var i :| 0 <= i < |rw.children| && Contains(rw.children[i], leaf);
      LeafInBase(sc, r, rw.children[i], leaf, x);
    }
  }

  lemma GoalUnfolds(sc: Scope, r: string, leaf: Rewrite, o: Object, n: nat, b: bool)
    requires SlowReady(sc, r, leaf) && o.typ == sc.typ && Derives(sc.w, n, Goal(o, r, sc.user), b)
    ensures n > 0 && RewriteDerives(sc.w, n - 1, Goal(o, r, sc.user), RewriteOf(sc, r), b)
    ensures WellFormed(sc, RewriteOf(sc, r))
  {
    assert (sc.typ, r).1 != "";
    assert PathOf(Goal(o, r, sc.user)) == PathTo(sc, r, sc.typ);
  }

  /** Unfolding one level of a derivation. */
  lemma DerivedBelow(sc: Scope, r: string, leaf: Rewrite, o: Object, n: nat)
    requires SlowReady(sc, r, leaf) && o.typ == sc.typ && Derives(sc.w, n, Goal(o, r, sc.user), true)
    ensures n > 0 && (InBase(sc, r, o) || SomeOwnDerives(sc, r, leaf, o, n - 1))
  {
    GoalUnfolds(sc, r, leaf, o, n, true);
    RewriteBelow(sc, r, RewriteOf(sc, r), leaf, o, n - 1);
    if !InBase(sc, r, o) {
      LeafBelow(sc, r, leaf, o, n - 1);
      if Member(sc, r, leaf, ObjectString(o)) { LeafInBase(sc, r, RewriteOf(sc, r), leaf, ObjectString(o)); }
    }
  }

  lemma RefutedBelow(sc: Scope, r: string, leaf: Rewrite, o: Object, n: nat)
    requires SlowReady(sc, r, leaf) && o.typ == sc.typ && Derives(sc.w, n, Goal(o, r, sc.user), false)
    ensures n > 0 && !InBase(sc, r, o) && AllOwnRefuted(sc, r, leaf, o, n - 1)
  {
    GoalUnfolds(sc, r, leaf, o, n, false);
    RewriteRefuted(sc, r, RewriteOf(sc, r), leaf, o, n - 1);
    LeafRefuted(sc, r, leaf, o, n - 1);
  }

  // ------------------------------------------------------------ what the slow path derives

  /** A derivation through own tuples leads to an object of the base. */
  lemma {:induction false} DerivedFinds(sc: Scope, r: string, leaf: Rewrite, o: Object, n: nat)
    requires SlowReady(sc, r, leaf) && SomeOwnDerives(sc, r, leaf, o, n)
    ensures Finds(sc, r, leaf, o, true, n)
    decreases n
  {
    var steps := Steps(sc, r, leaf, o);
    var i :| 0 <= i < |steps| && Own(sc, r, leaf, steps[i]) &&
      Derives(sc.w, n, Goal(steps[i].user.obj, r, sc.user), true);
    var p := steps[i].user.obj;
    DerivedBelow(sc, r, leaf, p, n);
    if !InBase(sc, r, p) { DerivedFinds(sc, r, leaf, p, n - 1); }
  }

  /** If the own tuples are refuted, following them finds nothing. */
  lemma {:induction false} RefutedFindsNone(sc: Scope, r: string, leaf: Rewrite, o: Object, n: nat, m: nat)
    requires SlowReady(sc, r, leaf) && AllOwnRefuted(sc, r, leaf, o, n)
    ensures !Finds(sc, r, leaf, o, true, m)
    decreases m
  {
    var steps := Steps(sc, r, leaf, o);
    forall i | 0 <= i < |steps| && Own(sc, r, leaf, steps[i])
      ensures !InBase(sc, r, steps[i].user.obj) && (m > 0 ==> !Finds(sc, r, leaf, steps[i].user.obj, true, m - 1))
    {
      RefutedBelow(sc, r, leaf, steps[i].user.obj, n);
      if m > 0 { RefutedFindsNone(sc, r, leaf, steps[i].user.obj, n - 1, m - 1); }
    }
  }

  /** Checking the leaf object by object derives nothing but what the recursive definition asks for. */
  lemma LeafDerives(sc: Scope, r: string, leaf: Rewrite, o: Object, n: nat, b: bool)
    requires SlowReady(sc, r, leaf) && o.typ == sc.typ
    requires TargetsDerive(sc.w, n, TargetsOf(sc, r, leaf, o), EndsInError(LeafRows(sc, r, leaf, o)), b)
    ensures b == OwnFinds(sc, r, leaf, o)
  {
    if b {
      TargetsBelow(sc, r, leaf, o, n);
      DerivedFinds(sc, r, leaf, o, n);
    } else {
      TargetsRefuted(sc, r, leaf, o, n);
      forall m: nat ensures !Finds(sc, r, leaf, o, true, m) { RefutedFindsNone(sc, r, leaf, o, n, m); }
    }
  }

  /** So the slow path answers nothing else. */
  lemma LeafAnswers(sc: Scope, r: string, leaf: Rewrite, o: Object)
    requires SlowReady(sc, r, leaf) && o.typ == sc.typ
    ensures SlowAnswers(sc.w, TargetsOf(sc, r, leaf, o), EndsInError(LeafRows(sc, r, leaf, o)),
      OwnFinds(sc, r, leaf, o))
  {
    var targets, fails := TargetsOf(sc, r, leaf, o), EndsInError(LeafRows(sc, r, leaf, o));
    forall n: nat, b | TargetsDerive(sc.w, n, targets, fails, b)
      ensures b == OwnFinds(sc, r, leaf, o)
    {
      LeafDerives(sc, r, leaf, o, n, b);
    }
    DerivedIsAnswered(sc.w, targets, fails, OwnFinds(sc, r, leaf, o));
  }

  // ------------------------------------------------------------ truth values, if conditions evaluate

  /** Some parent is in the relation. */
  ghost predicate SomeParentSettles(sc: Scope, r: string, leaf: Rewrite, o: Object)
    requires (sc.typ, r) in sc.w.relations
  {
    var steps := Steps(sc, r, leaf, o);
    exists i :: 0 <= i < |steps| && Own(sc, r, leaf, steps[i]) &&
      Settles(sc.w, Goal(steps[i].user.obj, r, sc.user), true)
  }

  lemma LeafAbove(sc: Scope, r: string, leaf: Rewrite, o: Object, n: nat)
    requires SlowReady(sc, r, leaf) && o.typ == sc.typ
    requires (Member(sc, r, leaf, ObjectString(o)) || SomeOwnDerives(sc, r, leaf, o, n))
    ensures RewriteDerives(sc.w, n, Goal(o, r, sc.user), leaf, true)
  {
    if leaf.This? {
      assert CleanRows(sc.w, o, r);
      ListedMember(sc, o, r);
      MatchAllows(sc.w, Goal(o, r, sc.user));
    }
    if SomeOwnDerives(sc, r, leaf, o, n) {
      var steps, targets := Steps(sc, r, leaf, o), TargetsOf(sc, r, leaf, o);
      var i :| 0 <= i < |steps| && Own(sc, r, leaf, steps[i]) &&
        Derives(sc.w, n, Goal(steps[i].user.obj, r, sc.user), true);
      OwnDispatched(sc, r, leaf, o, i);
      assert TargetsDerive(sc.w, n, targets, EndsInError(LeafRows(sc, r, leaf, o)), true);
      LeafDispatches(sc, r, leaf, o, n, true);
      if leaf.This? { assert steps[i] in steps && Userset(sc.typ, r) in sc.w.relations[(sc.typ, r)].restrictions; }
    }
  }

  lemma {:induction false} RewriteAbove(sc: Scope, r: string, rw: Rewrite, leaf: Rewrite, o: Object, n: nat)
    requires SlowReady(sc, r, leaf) && o.typ == sc.typ && n > sc.rank[r] && EvaluableTuples(sc.w, sc.typ)
    requires InScope(sc, r, rw) && WellFormed(sc, rw) && Recursive(sc, r, rw, leaf)
    requires Member(sc, r, rw, ObjectString(o)) ||
      (Contains(rw, leaf) && RewriteDerives(sc.w, n, Goal(o, r, sc.user), leaf, true))
    ensures RewriteDerives(sc.w, n, Goal(o, r, sc.user), rw, true)
    decreases rw
  {
    if rw == leaf {
      if Member(sc, r, rw, ObjectString(o)) { LeafAbove(sc, r, leaf, o, n); }
    } else if rw.Union? {
      var i :| 0 <= i < |rw.children| &&
        (Member(sc, r, rw.children[i], ObjectString(o)) ||
          (Contains(rw.children[i], leaf) && RewriteDerives(sc.w, n, Goal(o, r, sc.user), leaf, true)));
      RewriteAbove(sc, r, rw.children[i], leaf, o, n);
    } else {
      MemberIffDerives(sc, r, rw, o, n);
    }
  }

  lemma GoalAbove(sc: Scope, r: string, leaf: Rewrite, o: Object, n: nat)
    requires SlowReady(sc, r, leaf) && o.typ == sc.typ && n > sc.rank[r] && EvaluableTuples(sc.w, sc.typ)
    requires InBase(sc, r, o) || SomeOwnDerives(sc, r, leaf, o, n)
    ensures Derives(sc.w, n + 1, Goal(o, r, sc.user), true)
  {
    assert (sc.typ, r).1 != "";
    assert PathOf(Goal(o, r, sc.user)) == PathTo(sc, r, sc.typ);
    if SomeOwnDerives(sc, r, leaf, o, n) { LeafAbove(sc, r, leaf, o, n); }
    RewriteAbove(sc, r, RewriteOf(sc, r), leaf, o, n);
  }

  lemma DeepDerivation(w: World, goal: Goal, k: nat) returns (n: nat)
    requires Settles(w, goal, true)
    ensures n >= k && Derives(w, n, goal, true)
  {
    var m: nat :| Derives(w, m, goal, true);
    n := if m < k then k else m;
    DerivesMonotone(w, m, n, goal, true);
  }

  /**
   * The relation is the least solution of its recursive definition: an object is in it by its base or
   * through a parent.
   */
  lemma GoalSettles(sc: Scope, r: string, leaf: Rewrite, o: Object)
    requires SlowReady(sc, r, leaf) && o.typ == sc.typ && EvaluableTuples(sc.w, sc.typ)
    ensures Settles(sc.w, Goal(o, r, sc.user), true) <==> InBase(sc, r, o) || SomeParentSettles(sc, r, leaf, o)
  {
    var k := sc.rank[r] + 1;
    if InBase(sc, r, o) { GoalAbove(sc, r, leaf, o, k); }
    if SomeParentSettles(sc, r, leaf, o) {
      var steps := Steps(sc, r, leaf, o);
      var i :| 0 <= i < |steps| && Own(sc, r, leaf, steps[i]) &&
        Settles(sc.w, Goal(steps[i].user.obj, r, sc.user), true);
      var n := DeepDerivation(sc.w, Goal(steps[i].user.obj, r, sc.user), k);
      assert SomeOwnDerives(sc, r, leaf, o, n);
      GoalAbove(sc, r, leaf, o, n);
    }
    if n: nat :| Derives(sc.w, n, Goal(o, r, sc.user), true) {
      DerivedBelow(sc, r, leaf, o, n);
    }
  }

  /** If conditions evaluate, what the recursive definition asks for is whether some parent is in the relation. */
  lemma OwnFindsSettles(sc: Scope, r: string, leaf: Rewrite, o: Object)
    requires SlowReady(sc, r, leaf) && EvaluableTuples(sc.w, sc.typ)
    ensures OwnFinds(sc, r, leaf, o) <==> SomeParentSettles(sc, r, leaf, o)
  {
    if n: nat :| Finds(sc, r, leaf, o, true, n) { FindsSettles(sc, r, leaf, o, n); }
    if SomeParentSettles(sc, r, leaf, o) {
      var steps := Steps(sc, r, leaf, o);
      var i :| 0 <= i < |steps| && Own(sc, r, leaf, steps[i]) &&
        Settles(sc.w, Goal(steps[i].user.obj, r, sc.user), true);
      var n: nat :| Derives(sc.w, n, Goal(steps[i].user.obj, r, sc.user), true);
      DerivedFinds(sc, r, leaf, o, n);
    }
  }

  lemma {:induction false} FindsSettles(sc: Scope, r: string, leaf: Rewrite, o: Object, n: nat)
    requires SlowReady(sc, r, leaf) && EvaluableTuples(sc.w, sc.typ) && Finds(sc, r, leaf, o, true, n)
    ensures SomeParentSettles(sc, r, leaf, o)
    decreases n
  {
    var steps := Steps(sc, r, leaf, o);
    var i :| 0 <= i < |steps| && Own(sc, r, leaf, steps[i]) &&
      (InBase(sc, r, steps[i].user.obj) || (n > 0 && Finds(sc, r, leaf, steps[i].user.obj, true, n - 1)));
    if !InBase(sc, r, steps[i].user.obj) { FindsSettles(sc, r, leaf, steps[i].user.obj, n - 1); }
    GoalSettles(sc, r, leaf, steps[i].user.obj);
  }

  // ------------------------------------------------------------ the least fixpoint

  /** The recursive fast path is used in a model without exclusion, with complete leaf reads. */
  ghost predicate LfpReady(sc: Scope, r: string, leaf: Rewrite) {
    RecursiveReady(sc, r, leaf) && ListsAll(sc) && ExclusionFree(sc.w) && Clean(sc)
  }

  lemma LfpReadyHolds(sc: Scope, r: string, leaf: Rewrite)
    requires RecursiveReady(sc, r, leaf) && ListsAll(sc) && ExclusionFree(sc.w)
    ensures LfpReady(sc, r, leaf)
  {
  }

  /** A rule of the recursive relation applies by the base or through the leaf. */
  lemma {:induction false} RuleSplits(sc: Scope, r: string, rw: Rewrite, leaf: Rewrite, o: Object, s: iset<Goal>)
    requires LfpReady(sc, r, leaf) && o.typ == sc.typ && s <= Lfp(sc.w) && NoDifference(rw)
    requires InScope(sc, r, rw) && WellFormed(sc, rw) && Recursive(sc, r, rw, leaf)
    requires RewriteRule(sc.w, s, Goal(o, r, sc.user), rw)
    ensures Member(sc, r, rw, ObjectString(o)) || SomeIn(TargetsOf(sc, r, leaf, o), s)
    decreases rw
  {
    var g := Goal(o, r, sc.user);
    if rw == leaf {
      if leaf.This? { DirectByTuple(sc, r, o); }
    } else if rw.Union? {
      var i :| 0 <= i < |rw.children| && RewriteRule(sc.w, s, g, rw.children[i]);
      RuleSplits(sc, r, rw.children[i], leaf, o, s);
    } else {
      RewriteRuleMonotone(sc.w, s, Lfp(sc.w), g, rw);
      RuleIffMember(sc, r, rw, o);
    }
  }

  lemma DirectByTuple(sc: Scope, r: string, o: Object)
    requires (sc.typ, r) in sc.w.relations && Clean(sc) && InScope(sc, r, This) && o.typ == sc.typ
    ensures ALLOWED in TupleOutcomes(sc.w, sc.w.relations[(sc.typ, r)], Goal(o, r, sc.user)) <==>
      Member(sc, r, This, ObjectString(o))
  {
    assert CleanRows(sc.w, o, r);
    MatchAllows(sc.w, Goal(o, r, sc.user));
    ListedMember(sc, o, r);
  }

  /** And the other way round. */
  lemma {:induction false} RuleJoins(sc: Scope, r: string, rw: Rewrite, leaf: Rewrite, o: Object)
    requires LfpReady(sc, r, leaf) && o.typ == sc.typ && NoDifference(rw)
    requires InScope(sc, r, rw) && WellFormed(sc, rw) && Recursive(sc, r, rw, leaf)
    requires Member(sc, r, rw, ObjectString(o)) || (Contains(rw, leaf) && SomeIn(TargetsOf(sc, r, leaf, o), Lfp(sc.w)))
    ensures RewriteRule(sc.w, Lfp(sc.w), Goal(o, r, sc.user), rw)
    decreases rw
  {
    if rw == leaf {
      if leaf.This? {
        DirectByTuple(sc, r, o);
        UsersetsAdmitted(sc, r, o);
      }
    } else if rw.Union? {
      var i :| 0 <= i < |rw.children| &&
        (Member(sc, r, rw.children[i], ObjectString(o)) ||
          (Contains(rw.children[i], leaf) && SomeIn(TargetsOf(sc, r, leaf, o), Lfp(sc.w))));
      RuleJoins(sc, r, rw.children[i], leaf, o);
    } else {
      RuleIffMember(sc, r, rw, o);
    }
  }

  lemma UsersetsAdmitted(sc: Scope, r: string, o: Object)
    requires (sc.typ, r) in sc.w.relations
    ensures TargetsOf(sc, r, This, o) == [] || HasUsersets(sc.w.relations[(sc.typ, r)])
  {
    StepsAreUsersets(sc, r, o);
  }

  /** An object is in the relation by its base or through a tuple of the leaf. */
  lemma GoalJoins(sc: Scope, r: string, leaf: Rewrite, o: Object)
    requires LfpReady(sc, r, leaf) && o.typ == sc.typ
    requires (InBase(sc, r, o) || SomeIn(TargetsOf(sc, r, leaf, o), Lfp(sc.w)))
    ensures Goal(o, r, sc.user) in Lfp(sc.w)
  {
    assert PathOf(Goal(o, r, sc.user)) == PathTo(sc, r, sc.typ);
    RuleJoins(sc, r, RewriteOf(sc, r), leaf, o);
    LfpIsClosed(sc.w, Goal(o, r, sc.user));
  }

  /** A provable target of the leaf comes from an own tuple. */
  lemma ProvableOwn(sc: Scope, r: string, leaf: Rewrite, o: Object, k: nat) returns (row: Row)
    requires LfpReady(sc, r, leaf) && o.typ == sc.typ && k < |TargetsOf(sc, r, leaf, o)|
    requires TargetsOf(sc, r, leaf, o)[k] in Lfp(sc.w)
    ensures row in Steps(sc, r, leaf, o) && Own(sc, r, leaf, row)
    ensures TargetsOf(sc, r, leaf, o)[k] == Goal(row.user.obj, r, sc.user)
  {
    var visible := Visible(LeafRows(sc, r, leaf, o));
    var i := DispatchedRow(sc, r, leaf, o, k);
    row := visible[i];
    assert row in visible;
    assert CleanRows(sc.w, o, From(r, leaf));
    assert RowTyped(sc.w.relations[(sc.typ, From(r, leaf))], row);
    var target := TargetsOf(sc, r, leaf, o)[k];
    if NoPath(sc, target.relation, target.obj.typ) { NoPathNoProof(sc, target); }
  }

  /** If the goal asks for the recursive relation, its object is in the base or the base is found from it. */
  ghost predicate Explained(sc: Scope, r: string, leaf: Rewrite, g: Goal)
    requires (sc.typ, r) in sc.w.relations && InScope(sc, r, RewriteOf(sc, r))
  {
    g == Goal(g.obj, r, sc.user) && g.obj.typ == sc.typ ==> InBase(sc, r, g.obj) || OwnFinds(sc, r, leaf, g.obj)
  }

  ghost function Explicable(sc: Scope, r: string, leaf: Rewrite): iset<Goal>
    requires (sc.typ, r) in sc.w.relations && InScope(sc, r, RewriteOf(sc, r))
  {
    iset g | g in Lfp(sc.w) && Explained(sc, r, leaf, g)
  }

  lemma ExplicableClosed(sc: Scope, r: string, leaf: Rewrite, g: Goal)
    requires LfpReady(sc, r, leaf) && Rule(sc.w, Explicable(sc, r, leaf), g)
    ensures g in Explicable(sc, r, leaf)
  {
    RuleMonotone(sc.w, Explicable(sc, r, leaf), Lfp(sc.w), g);
    LfpIsClosed(sc.w, g);
    if g == Goal(g.obj, r, sc.user) && g.obj.typ == sc.typ { RuleExplains(sc, r, leaf, g.obj); }
  }

  lemma RuleExplains(sc: Scope, r: string, leaf: Rewrite, o: Object)
    requires LfpReady(sc, r, leaf) && o.typ == sc.typ && Rule(sc.w, Explicable(sc, r, leaf), Goal(o, r, sc.user))
    ensures InBase(sc, r, o) || OwnFinds(sc, r, leaf, o)
  {
    var s := Explicable(sc, r, leaf);
    assert (sc.typ, r).1 != "";
    RuleSplits(sc, r, RewriteOf(sc, r), leaf, o, s);
    if !InBase(sc, r, o) {
      var k :| 0 <= k < |TargetsOf(sc, r, leaf, o)| && TargetsOf(sc, r, leaf, o)[k] in s;
      var row := ProvableOwn(sc, r, leaf, o, k);
      assert Explained(sc, r, leaf, Goal(row.user.obj, r, sc.user));
      FoundByStep(sc, r, leaf, o, row);
    }
  }

  /** What has a proof is in the base or found by own tuples. */
  lemma ProvableFinds(sc: Scope, r: string, leaf: Rewrite, o: Object)
    requires LfpReady(sc, r, leaf) && o.typ == sc.typ && Goal(o, r, sc.user) in Lfp(sc.w)
    ensures InBase(sc, r, o) || OwnFinds(sc, r, leaf, o)
  {
    var g := Goal(o, r, sc.user);
    forall h | Rule(sc.w, Explicable(sc, r, leaf), h)
      ensures h in Explicable(sc, r, leaf)
    {
      ExplicableClosed(sc, r, leaf, h);
    }
    var m: nat :| g in Level(sc.w, m, {});
    LfpIsLeast(sc.w, Explicable(sc, r, leaf), m);
    assert Explained(sc, r, leaf, g);
  }

  lemma FoundByStep(sc: Scope, r: string, leaf: Rewrite, o: Object, row: Row)
    requires (sc.typ, r) in sc.w.relations && InScope(sc, r, RewriteOf(sc, r)) && row in Steps(sc, r, leaf, o)
    requires Own(sc, r, leaf, row)
    requires InBase(sc, r, row.user.obj) || OwnFinds(sc, r, leaf, row.user.obj)
    ensures OwnFinds(sc, r, leaf, o)
  {
    if InBase(sc, r, row.user.obj) {
      StepFinds(sc, r, leaf, o, true, row, 0);
    } else {
      var n: nat :| Finds(sc, r, leaf, row.user.obj, true, n);
      StepFinds(sc, r, leaf, o, true, row, n + 1);
    }
  }

  lemma {:induction false} FindsInLfp(sc: Scope, r: string, leaf: Rewrite, o: Object, n: nat)
    requires LfpReady(sc, r, leaf) && Finds(sc, r, leaf, o, true, n)
    ensures SomeIn(TargetsOf(sc, r, leaf, o), Lfp(sc.w))
    decreases n
  {
    var i := FindsStep(sc, r, leaf, o, true, n);
    var p := Steps(sc, r, leaf, o)[i].user.obj;
    if !InBase(sc, r, p) { FindsInLfp(sc, r, leaf, p, n - 1); }
    GoalJoins(sc, r, leaf, p);
    OwnDispatched(sc, r, leaf, o, i);
  }

  /** Without exclusion, following own tuples leads to the base exactly if the leaf holds in the least fixpoint. */
  lemma OwnFindsIsLfp(sc: Scope, r: string, leaf: Rewrite, o: Object)
    requires RecursiveReady(sc, r, leaf) && ListsAll(sc) && ExclusionFree(sc.w) && o.typ == sc.typ
    ensures OwnFinds(sc, r, leaf, o) <==> SomeIn(TargetsOf(sc, r, leaf, o), Lfp(sc.w))
  {
    LfpReadyHolds(sc, r, leaf);
    if n: nat :| Finds(sc, r, leaf, o, true, n) { FindsInLfp(sc, r, leaf, o, n); }
    if SomeIn(TargetsOf(sc, r, leaf, o), Lfp(sc.w)) {
      var k :| 0 <= k < |TargetsOf(sc, r, leaf, o)| && TargetsOf(sc, r, leaf, o)[k] in Lfp(sc.w);
      var row := ProvableOwn(sc, r, leaf, o, k);
      ProvableFinds(sc, r, leaf, row.user.obj);
      FoundByStep(sc, r, leaf, o, row);
    }
  }

  // ------------------------------------------------------------ the graph the search walks

  /** What a read of the tuples of `o` may deliver: all objects they name, or some of them before an error. */
  ghost predicate Delivers(sc: Scope, r: string, leaf: Rewrite, o: Object, msgs: seq<RightMsg>)
    requires (sc.typ, r) in sc.w.relations
  {
    var all := FoundIn(ParentMessages(StepRows(sc, r, leaf, o)));
    FoundIn(msgs) <= all && (!RightFails(msgs) ==> FoundIn(msgs) == all)
  }

  ghost predicate GraphOk(sc: Scope, r: string, leaf: Rewrite, g: Graph)
    requires (sc.typ, r) in sc.w.relations
  {
    forall o: Object :: ':' !in o.typ && ObjectString(o) in g ==> Delivers(sc, r, leaf, o, g[ObjectString(o)])
  }

  /** The tuples are valid; nothing is asked of the model. */
  ghost predicate Searchable(sc: Scope, r: string, leaf: Rewrite) {
    (sc.typ, r) in sc.w.relations && InScope(sc, r, RewriteOf(sc, r)) && (leaf.This? || leaf.TupleToUserset?) &&
      forall o, s :: CleanRows(sc.w, o, s)
  }

  /** The type of an object a tuple names is a restriction of the relation read. */
  lemma StepTyped(sc: Scope, r: string, leaf: Rewrite, o: Object, i: nat) returns (x: Restriction)
    requires Searchable(sc, r, leaf) && i < |Steps(sc, r, leaf, o)|
    ensures StepAllowed(sc, r, leaf, o.typ, x) && x.typ == Steps(sc, r, leaf, o)[i].user.obj.typ
    ensures (ValidWorld(sc.w) ==> ':' !in x.typ)
    ensures OwnRestriction(sc, r, leaf, x) <==> Own(sc, r, leaf, Steps(sc, r, leaf, o)[i])
  {
    var row := Steps(sc, r, leaf, o)[i];
    assert row in Steps(sc, r, leaf, o) && row in sc.w.Rows(o, From(r, leaf));
    assert CleanRows(sc.w, o, From(r, leaf));
    x := if leaf.TupleToUserset? then Direct(row.user.obj.typ) else Userset(row.user.obj.typ, row.user.relation);
  }

  /** A delivered message names an object one tuple away. */
  lemma DeliveredStep(sc: Scope, r: string, leaf: Rewrite, o: Object, msgs: seq<RightMsg>, p: Object) returns (i: nat)
    requires RecursiveReady(sc, r, leaf) && Delivers(sc, r, leaf, o, msgs) && ObjectString(p) in FoundIn(msgs)
    requires ':' !in p.typ
    ensures i < |Steps(sc, r, leaf, o)| && Steps(sc, r, leaf, o)[i].user.obj == p
  {
    i := FoundParent(StepRows(sc, r, leaf, o), ObjectString(p));
    var x := StepTyped(sc, r, leaf, o, i);
    ObjectStringParts(Steps(sc, r, leaf, o)[i].user.obj, p);
  }

  lemma DeliveredObject(sc: Scope, r: string, leaf: Rewrite, o: Object, msgs: seq<RightMsg>, y: string)
    returns (p: Object)
    requires RecursiveReady(sc, r, leaf) && Delivers(sc, r, leaf, o, msgs) && y in FoundIn(msgs)
    ensures ':' !in p.typ && ObjectString(p) == y
  {
    var i := FoundParent(StepRows(sc, r, leaf, o), y);
    var x := StepTyped(sc, r, leaf, o, i);
    p := Steps(sc, r, leaf, o)[i].user.obj;
  }

  /** `x` is the text of an object. */
  ghost predicate NamesOne(x: string) {
    exists p: Object :: ':' !in p.typ && ObjectString(p) == x
  }

  /** From texts of objects the graph leads to texts of objects. */
  ghost predicate LeadsToObjects(g: Graph) {
    forall y, x :: NamesOne(y) && x in Next(g, y) ==> NamesOne(x)
  }

  lemma GraphLeadsToObjects(sc: Scope, r: string, leaf: Rewrite, g: Graph)
    requires RecursiveReady(sc, r, leaf) && GraphOk(sc, r, leaf, g)
    ensures LeadsToObjects(g)
  {
    forall y, x | NamesOne(y) && x in Next(g, y) ensures NamesOne(x) {
      var q: Object :| ':' !in q.typ && ObjectString(q) == y;
      var p := DeliveredObject(sc, r, leaf, q, g[y], x);
    }
  }

  /** Whatever is reached from texts of objects is the text of an object. */
  lemma {:induction false} ReachedNames(g: Graph, s: set<string>, x: string, m: nat)
    requires LeadsToObjects(g) && (forall y :: y in s ==> NamesOne(y)) && ReachedBy(g, s, x, m)
    ensures NamesOne(x)
    decreases m
  {
    if m > 0 {
      var y := LastStep(g, s, x, m);
      ReachedNames(g, s, y, m - 1);
    }
  }

  /** Whatever the search reaches is an object. */
  lemma ReachedObject(sc: Scope, r: string, leaf: Rewrite, g: Graph, o: Object, parents: seq<RightMsg>, x: string,
                      m: nat)
    returns (p: Object)
    requires RecursiveReady(sc, r, leaf) && GraphOk(sc, r, leaf, g) && Delivers(sc, r, leaf, o, parents)
    requires ReachedBy(g, FoundIn(parents), x, m)
    ensures ':' !in p.typ && ObjectString(p) == x
  {
    GraphLeadsToObjects(sc, r, leaf, g);
    forall y | y in FoundIn(parents) ensures NamesOne(y) { var q := DeliveredObject(sc, r, leaf, o, parents, y); }
    ReachedNames(g, FoundIn(parents), x, m);
    p :| ':' !in p.typ && ObjectString(p) == x;
  }

  /** `x` names an object of the base, or one from which the base is found. */
  ghost predicate NamesFinder(sc: Scope, r: string, leaf: Rewrite, x: string)
    requires (sc.typ, r) in sc.w.relations && InScope(sc, r, RewriteOf(sc, r))
  {
    exists p: Object :: ':' !in p.typ && ObjectString(p) == x && (InBase(sc, r, p) || SearchFinds(sc, r, leaf, p))
  }

  /** A property that passes from an object to those it is found by climbs from any reached object to the start. */
  lemma {:induction false} Climbs(g: Graph, s: set<string>, holds: string -> bool, x: string, m: nat)
    requires ReachedBy(g, s, x, m) && holds(x)
    requires forall y, z :: Reaches(g, s, y) && z in Next(g, y) && holds(z) ==> holds(y)
    ensures exists y :: y in s && holds(y)
    decreases m
  {
    if m > 0 {
      var y :| ReachedBy(g, s, y, m - 1) && x in Next(g, y);
      assert Reaches(g, s, y);
      Climbs(g, s, holds, y, m - 1);
    }
  }

  /** One tuple before an object of the base, or before one from which the base is found, the base is found. */
  lemma OneUp(sc: Scope, r: string, leaf: Rewrite, o: Object, msgs: seq<RightMsg>, y: string)
    requires RecursiveReady(sc, r, leaf) && Delivers(sc, r, leaf, o, msgs) && y in FoundIn(msgs)
    requires NamesFinder(sc, r, leaf, y)
    ensures SearchFinds(sc, r, leaf, o)
  {
    var p: Object :| ':' !in p.typ && ObjectString(p) == y && (InBase(sc, r, p) || SearchFinds(sc, r, leaf, p));
    var i := DeliveredStep(sc, r, leaf, o, msgs, p);
    if InBase(sc, r, p) {
      StepFinds(sc, r, leaf, o, false, Steps(sc, r, leaf, o)[i], 0);
    } else {
      var n: nat :| Finds(sc, r, leaf, p, false, n);
      StepFinds(sc, r, leaf, o, false, Steps(sc, r, leaf, o)[i], n + 1);
    }
  }

  /** The first tuple that is followed. */
  lemma FindsStep(sc: Scope, r: string, leaf: Rewrite, o: Object, own: bool, n: nat) returns (i: nat)
    requires (sc.typ, r) in sc.w.relations && InScope(sc, r, RewriteOf(sc, r)) && Finds(sc, r, leaf, o, own, n)
    ensures i < |Steps(sc, r, leaf, o)| && (own ==> Own(sc, r, leaf, Steps(sc, r, leaf, o)[i]))
    ensures InBase(sc, r, Steps(sc, r, leaf, o)[i].user.obj) ||
      (n > 0 && Finds(sc, r, leaf, Steps(sc, r, leaf, o)[i].user.obj, own, n - 1))
  {
    var steps := Steps(sc, r, leaf, o);
    i :| 0 <= i < |steps| && (own ==> Own(sc, r, leaf, steps[i])) &&
      (InBase(sc, r, steps[i].user.obj) || (n > 0 && Finds(sc, r, leaf, steps[i].user.obj, own, n - 1)));
  }

  lemma StepFinds(sc: Scope, r: string, leaf: Rewrite, o: Object, own: bool, row: Row, n: nat)
    requires (sc.typ, r) in sc.w.relations && InScope(sc, r, RewriteOf(sc, r)) && row in Steps(sc, r, leaf, o)
    requires (own ==> Own(sc, r, leaf, row))
    requires InBase(sc, r, row.user.obj) || (n > 0 && Finds(sc, r, leaf, row.user.obj, own, n - 1))
    ensures Finds(sc, r, leaf, o, own, n)
  {
  }

  lemma NamesUp(sc: Scope, r: string, leaf: Rewrite, g: Graph, o: Object, parents: seq<RightMsg>, y: string, z: string)
    requires RecursiveReady(sc, r, leaf) && GraphOk(sc, r, leaf, g) && Delivers(sc, r, leaf, o, parents)
    requires Reaches(g, FoundIn(parents), y) && z in Next(g, y) && NamesFinder(sc, r, leaf, z)
    ensures NamesFinder(sc, r, leaf, y)
  {
    var m: nat :| ReachedBy(g, FoundIn(parents), y, m);
    var q := ReachedObject(sc, r, leaf, g, o, parents, y, m);
    OneUp(sc, r, leaf, q, g[y], z);
  }

  /** A reached object that is in the base is found by following tuples. */
  lemma HitFinds(sc: Scope, r: string, leaf: Rewrite, g: Graph, o: Object, parents: seq<RightMsg>, user: set<string>)
    requires RecursiveReady(sc, r, leaf) && GraphOk(sc, r, leaf, g) && Delivers(sc, r, leaf, o, parents)
    requires Hits(g, FoundIn(parents), user) && forall x :: x in user ==> Member(sc, r, RewriteOf(sc, r), x)
    ensures SearchFinds(sc, r, leaf, o)
  {
    var x :| Reaches(g, FoundIn(parents), x) && x in user;
    var m: nat :| ReachedBy(g, FoundIn(parents), x, m);
    var p := MemberTyped(sc, r, RewriteOf(sc, r), x);
    assert InBase(sc, r, p);
    forall y, z | Reaches(g, FoundIn(parents), y) && z in Next(g, y) && NamesFinder(sc, r, leaf, z)
      ensures NamesFinder(sc, r, leaf, y)
    {
      NamesUp(sc, r, leaf, g, o, parents, y, z);
    }
    Climbs(g, FoundIn(parents), y => NamesFinder(sc, r, leaf, y), x, m);
    var y :| y in FoundIn(parents) && NamesFinder(sc, r, leaf, y);
    OneUp(sc, r, leaf, o, parents, y);
  }

  // ------------------------------------------------------------ nothing is missed

  lemma {:induction false} ReachedFrom(g: Graph, s: set<string>, y: string, x: string, m: nat)
    requires y in s && ReachedBy(g, Next(g, y), x, m)
    ensures ReachedBy(g, s, x, m + 1)
    decreases m
  {
    if m == 0 {
      assert ReachedBy(g, s, y, 0);
    } else {
      var z :| ReachedBy(g, Next(g, y), z, m - 1) && x in Next(g, z);
      ReachedFrom(g, s, y, z, m - 1);
    }
  }

  lemma ReachesFrom(g: Graph, s: set<string>, y: string)
    requires y in s
    ensures forall x :: Reaches(g, Next(g, y), x) ==> Reaches(g, s, x)
  {
    forall x | Reaches(g, Next(g, y), x) ensures Reaches(g, s, x) {
      var m: nat :| ReachedBy(g, Next(g, y), x, m);
      ReachedFrom(g, s, y, x, m);
    }
  }

  /** If every reachable object could be read, following tuples to the base is a hit. */
  lemma {:induction false} FindsHit(sc: Scope, r: string, leaf: Rewrite, g: Graph, o: Object, parents: seq<RightMsg>,
                                    user: set<string>, n: nat)
    requires RecursiveReady(sc, r, leaf) && GraphOk(sc, r, leaf, g)
    requires Delivers(sc, r, leaf, o, parents) && !RightFails(parents) && !SomeReadFails(g, FoundIn(parents))
    requires Finds(sc, r, leaf, o, false, n) && forall x :: Member(sc, r, RewriteOf(sc, r), x) ==> x in user
    ensures Hits(g, FoundIn(parents), user)
    decreases n
  {
    var i := FindsStep(sc, r, leaf, o, false, n);
    var p := Steps(sc, r, leaf, o)[i].user.obj;
    var t := StepTyped(sc, r, leaf, o, i);
    ParentFound(StepRows(sc, r, leaf, o), i);
    StartReached(g, FoundIn(parents));
    if InBase(sc, r, p) {
      assert ObjectString(p) in user;
    } else {
      assert !ReadFails(g, ObjectString(p));
      ReachesFrom(g, FoundIn(parents), ObjectString(p));
      FindsHit(sc, r, leaf, g, p, g[ObjectString(p)], user, n - 1);
    }
  }

  // ------------------------------------------------------------ detours

  /** A tuple with a user of this kind is followed from objects of the type. */
  predicate StepAllowed(sc: Scope, r: string, leaf: Rewrite, typ: string, x: Restriction) {
    && (typ, From(r, leaf)) in sc.w.relations && x in sc.w.relations[(typ, From(r, leaf))].restrictions
    && (if leaf.TupleToUserset? then x.Direct?
         else x.Userset? && (sc.typ, r) in sc.w.relations && x in sc.w.relations[(sc.typ, r)].restrictions)
  }

  predicate OwnRestriction(sc: Scope, r: string, leaf: Rewrite, x: Restriction) {
    x.typ == sc.typ && (leaf.This? ==> x.Userset? && x.relation == r)
  }

  /** From objects of the type, `k` tuples can lead back to the relation's own type. */
  ghost predicate Returns(sc: Scope, r: string, leaf: Rewrite, typ: string, k: nat)
    decreases k
  {
    if k == 0 then typ == sc.typ else exists x :: StepAllowed(sc, r, leaf, typ, x) && Returns(sc, r, leaf, x.typ, k - 1)
  }

  /** The model admits a tuple that is not own and from which tuples lead back to the type. */
  ghost predicate Detour(sc: Scope, r: string, leaf: Rewrite) {
    exists x, k: nat :: StepAllowed(sc, r, leaf, sc.typ, x) && !OwnRestriction(sc, r, leaf, x) &&
      Returns(sc, r, leaf, x.typ, k)
  }

  lemma ReturnsFurther(sc: Scope, r: string, leaf: Rewrite, typ: string, x: Restriction, j: nat) returns (k: nat)
    requires StepAllowed(sc, r, leaf, typ, x) && Returns(sc, r, leaf, x.typ, j)
    ensures Returns(sc, r, leaf, typ, k)
  {
    k := j + 1;
  }

  /** An object from which the base is found has a type that returns. */
  lemma {:induction false} FindsReturns(sc: Scope, r: string, leaf: Rewrite, o: Object, n: nat) returns (k: nat)
    requires Searchable(sc, r, leaf) && Finds(sc, r, leaf, o, false, n)
    ensures Returns(sc, r, leaf, o.typ, k)
    decreases n
  {
    var steps := Steps(sc, r, leaf, o);
    var i :| 0 <= i < |steps| &&
      (InBase(sc, r, steps[i].user.obj) || (n > 0 && Finds(sc, r, leaf, steps[i].user.obj, false, n - 1)));
    var x := StepTyped(sc, r, leaf, o, i);
    if InBase(sc, r, steps[i].user.obj) {
      k := ReturnsFurther(sc, r, leaf, o.typ, x, 0);
    } else {
      var j := FindsReturns(sc, r, leaf, steps[i].user.obj, n - 1);
      k := ReturnsFurther(sc, r, leaf, o.typ, x, j);
    }
  }

  /** Without a detour the search finds by own tuples only. */
  lemma {:induction false} NoDetourFindsOwn(sc: Scope, r: string, leaf: Rewrite, o: Object, n: nat)
    requires Searchable(sc, r, leaf) && o.typ == sc.typ && !Detour(sc, r, leaf) && Finds(sc, r, leaf, o, false, n)
    ensures Finds(sc, r, leaf, o, true, n)
    decreases n
  {
    var steps := Steps(sc, r, leaf, o);
    var i :| 0 <= i < |steps| &&
      (InBase(sc, r, steps[i].user.obj) || (n > 0 && Finds(sc, r, leaf, steps[i].user.obj, false, n - 1)));
    var x := StepTyped(sc, r, leaf, o, i);
    if InBase(sc, r, steps[i].user.obj) {
      assert Returns(sc, r, leaf, x.typ, 0);
    } else {
      var k := FindsReturns(sc, r, leaf, steps[i].user.obj, n - 1);
      assert Own(sc, r, leaf, steps[i]);
      NoDetourFindsOwn(sc, r, leaf, steps[i].user.obj, n - 1);
    }
  }

  /** Own tuples are also followed by the search. */
  lemma {:induction false} OwnIsFollowed(sc: Scope, r: string, leaf: Rewrite, o: Object, n: nat)
    requires (sc.typ, r) in sc.w.relations && InScope(sc, r, RewriteOf(sc, r)) && Finds(sc, r, leaf, o, true, n)
    ensures Finds(sc, r, leaf, o, false, n)
    decreases n
  {
    var steps := Steps(sc, r, leaf, o);
    var i :| 0 <= i < |steps| && Own(sc, r, leaf, steps[i]) &&
      (InBase(sc, r, steps[i].user.obj) || (n > 0 && Finds(sc, r, leaf, steps[i].user.obj, true, n - 1)));
    if !InBase(sc, r, steps[i].user.obj) { OwnIsFollowed(sc, r, leaf, steps[i].user.obj, n - 1); }
  }

  /** What the recursive definition asks for the search finds; without a detour it finds nothing else. */
  lemma SearchAndDefinition(sc: Scope, r: string, leaf: Rewrite, o: Object)
    requires Searchable(sc, r, leaf) && o.typ == sc.typ
    ensures OwnFinds(sc, r, leaf, o) ==> SearchFinds(sc, r, leaf, o)
    ensures !Detour(sc, r, leaf) && SearchFinds(sc, r, leaf, o) ==> OwnFinds(sc, r, leaf, o)
  {
    if n: nat :| Finds(sc, r, leaf, o, true, n) { OwnIsFollowed(sc, r, leaf, o, n); }
    if !Detour(sc, r, leaf) && SearchFinds(sc, r, leaf, o) {
      var n: nat :| Finds(sc, r, leaf, o, false, n);
      NoDetourFindsOwn(sc, r, leaf, o, n);
    }
  }

  // ------------------------------------------------------------ the user's side

  /** iteratorsToUserset: the streamed objects one by one; the first error message ends it. */
  method IteratorsToUserset(ch: seq<Msg>) returns (out: seq<RightMsg>)
    ensures FoundIn(out) <= ItemSet(ch) && (RightFails(out) <==> Faulty(ch))
    ensures !Faulty(ch) ==> FoundIn(out) == ItemSet(ch)
  {
    out := [];
    for i := 0 to |ch|
      invariant FoundIn(out) == ItemSet(ch[..i]) && (RightFails(out) <==> Faulty(ch[..i]))
    {
      LeftSnoc(ch, i);
      PrefixItems(ch, i);
      if ch[i].Failed? {
        LeftFails(ch, i);
        AppendFailure(out);
        return out + [LookupFailed];
      }
      var one := ItemMessages(ch[i].iter);
      AppendMessages(out, one);
      out := out + one;
    }
    assert ch[..|ch|] == ch;
  }

  function ItemMessages(it: Iter): (r: seq<RightMsg>)
    ensures FoundIn(r) == (set x | x in it.items) && (RightFails(r) <==> it.fails)
  {
    var found := seq(|it.items|, i requires 0 <= i < |it.items| => Found(it.items[i]));
    assert forall i :: 0 <= i < |it.items| ==> found[i].obj == it.items[i];
    if it.fails then
      assert (found + [LookupFailed])[|found|] == LookupFailed; assert forall i :: 0 <= i < |found| ==>
        (found + [LookupFailed])[i] == found[i]; found + [LookupFailed]
    else found
  }

  lemma AppendMessages(a: seq<RightMsg>, b: seq<RightMsg>)
    ensures FoundIn(a + b) == FoundIn(a) + FoundIn(b) && (RightFails(a + b) <==> RightFails(a) || RightFails(b))
  {
    var s := a + b;
    assert forall i :: 0 <= i < |a| ==> s[i] == a[i];
    assert forall i :: 0 <= i < |b| ==> s[|a| + i] == b[i];
  }

  lemma AppendFailure(a: seq<RightMsg>)
    ensures FoundIn(a + [LookupFailed]) == FoundIn(a) && RightFails(a + [LookupFailed])
  {
    AppendMessages(a, [LookupFailed]);
    assert [LookupFailed][0] == LookupFailed;
  }

  lemma PrefixItems(ch: seq<Msg>, i: nat)
    requires i <= |ch|
    ensures ItemSet(ch[..i]) <= ItemSet(ch)
  {
    forall x | x in ItemSet(ch[..i]) ensures x in ItemSet(ch) {
      var k := ItemFrom(ch[..i], x);
      ItemOf(ch, k, x);
    }
  }

  // ------------------------------------------------------------ the main theorem

  /**
   * recursiveTTUFastPathV2 and recursiveUsersetFastPathV2: an answer without an error says whether
   * following tuples leads to an object of the base, as far as the leaf reads list it. If they list all
   * directly related objects, and the answer is a denial or the model admits no detour, any unflagged
   * answer of the slow path, which dispatches a check per tuple, is the same, and without exclusion it is
   * what the least fixpoint says. This holds for every shape of the tuples, cycles included, and every
   * order of the reads. An error is only given if a read fails or some object is about as far away as
   * levels are left.
   */
  method RecursiveFastPathV2(sc: Scope, r: string, leaf: Rewrite, o: Object, leaves: map<string, seq<Msg>>,
                             parents: seq<RightMsg>, g: Graph,
                             depth: nat, maxDepth: nat, userFirst: nat -> bool)
    returns (a: Answer)
    requires RecursiveReady(sc, r, leaf) && o.typ == sc.typ && LeavesOk(sc, leaves)
    requires Delivers(sc, r, leaf, o, parents) && GraphOk(sc, r, leaf, g) && depth < maxDepth
    ensures a.allowed ==> !a.err
    ensures !a.err ==> (a.allowed <==> SearchFinds(sc, r, leaf, o))
    ensures !a.err && (!a.allowed || !Detour(sc, r, leaf)) && SlowReady(sc, r, leaf) ==>
      SlowAnswers(sc.w, TargetsOf(sc, r, leaf, o), EndsInError(LeafRows(sc, r, leaf, o)), a.allowed)
    ensures !a.err && (!a.allowed || !Detour(sc, r, leaf)) && ListsAll(sc) && ExclusionFree(sc.w) ==>
      (a.allowed <==> SomeIn(TargetsOf(sc, r, leaf, o), Lfp(sc.w)))
    ensures a.err ==>
      || RightFails(parents) || !Starts(sc, r, RewriteOf(sc, r), leaves) || SomeLeafFaulty(leaves)
      || SomeReadFails(g, FoundIn(parents)) || Far(g, FoundIn(parents), maxDepth - depth - 3)
  {
    SearchMeans(sc, r, leaf, o);
    if parents == [] {
      NoMessagesNoSteps(sc, r, leaf, o);
      return Answer(false, false);
    }
    if parents[0].LookupFailed? { return Answer(false, true); }
    var ch;
    ghost var m;
    ch, m := FastPathRewrite(sc, r, RewriteOf(sc, r), leaves);
    if ch.None? { return Answer(false, true); }
    var related := IteratorsToUserset(ch.value);
    RelatedMembers(sc, r, ch.value, m, related);
    a := RecursiveFastPath(g, parents, related, depth, maxDepth, userFirst);
    if a.allowed {
      HitFinds(sc, r, leaf, g, o, parents, FoundIn(related));
    } else if !a.err {
      NoHitFindsNone(sc, r, leaf, g, o, parents, related);
    }
  }

  /** What the search finds, as far as no detour misleads it. */
  lemma SearchMeans(sc: Scope, r: string, leaf: Rewrite, o: Object)
    requires RecursiveReady(sc, r, leaf) && o.typ == sc.typ
    ensures (!SearchFinds(sc, r, leaf, o) || !Detour(sc, r, leaf)) && SlowReady(sc, r, leaf) ==>
      SlowAnswers(sc.w, TargetsOf(sc, r, leaf, o), EndsInError(LeafRows(sc, r, leaf, o)), SearchFinds(sc, r, leaf, o))
    ensures (!SearchFinds(sc, r, leaf, o) || !Detour(sc, r, leaf)) && ListsAll(sc) && ExclusionFree(sc.w) ==>
      (SearchFinds(sc, r, leaf, o) <==> SomeIn(TargetsOf(sc, r, leaf, o), Lfp(sc.w)))
  {
    SearchAndDefinition(sc, r, leaf, o);
    if SlowReady(sc, r, leaf) { LeafAnswers(sc, r, leaf, o); }
    if ListsAll(sc) && ExclusionFree(sc.w) { OwnFindsIsLfp(sc, r, leaf, o); }
  }

  lemma NoMessagesNoSteps(sc: Scope, r: string, leaf: Rewrite, o: Object)
    requires (sc.typ, r) in sc.w.relations && InScope(sc, r, RewriteOf(sc, r)) && Delivers(sc, r, leaf, o, [])
    ensures !SearchFinds(sc, r, leaf, o)
  {
    NoSteps(sc, r, leaf, o);
    forall n: nat ensures !Finds(sc, r, leaf, o, false, n) {
      assert Steps(sc, r, leaf, o) == [];
    }
  }

  lemma NoSteps(sc: Scope, r: string, leaf: Rewrite, o: Object)
    requires (sc.typ, r) in sc.w.relations && Delivers(sc, r, leaf, o, [])
    ensures Steps(sc, r, leaf, o) == []
  {
    if Steps(sc, r, leaf, o) != [] { ParentFound(StepRows(sc, r, leaf, o), 0); }
  }

  lemma RelatedMembers(sc: Scope, r: string, ch: seq<Msg>, m: multiset<string>, related: seq<RightMsg>)
    requires (sc.typ, r) in sc.w.relations && InScope(sc, r, RewriteOf(sc, r)) && Represents(m, sc, r, RewriteOf(sc, r))
    requires Enumerates(Items(ch), Faulty(ch), m) && FoundIn(related) <= ItemSet(ch)
    requires (!Faulty(ch) ==> FoundIn(related) == ItemSet(ch))
    ensures forall x :: x in FoundIn(related) ==> Member(sc, r, RewriteOf(sc, r), x)
    ensures !Faulty(ch) ==> forall x :: Member(sc, r, RewriteOf(sc, r), x) ==> x in FoundIn(related)
  {
  }

  lemma NoHitFindsNone(sc: Scope, r: string, leaf: Rewrite, g: Graph, o: Object, parents: seq<RightMsg>,
                       related: seq<RightMsg>)
    requires RecursiveReady(sc, r, leaf) && GraphOk(sc, r, leaf, g) && Delivers(sc, r, leaf, o, parents)
    requires !Hits(g, FoundIn(parents), FoundIn(related)) && !RightFails(related)
    requires FoundIn(related) == {} || (!RightFails(parents) && !SomeReadFails(g, FoundIn(parents)))
    requires forall x :: Member(sc, r, RewriteOf(sc, r), x) ==> x in FoundIn(related)
    ensures !SearchFinds(sc, r, leaf, o)
  {
    forall n: nat ensures !Finds(sc, r, leaf, o, false, n) {
      if FoundIn(related) == {} {
        EmptyBase(sc, r, leaf, o, false, n);
      } else if Finds(sc, r, leaf, o, false, n) {
        FindsHit(sc, r, leaf, g, o, parents, FoundIn(related), n);
      }
    }
  }

  /** With an empty base nothing is found. */
  lemma {:induction false} EmptyBase(sc: Scope, r: string, leaf: Rewrite, o: Object, own: bool, n: nat)
    requires (sc.typ, r) in sc.w.relations && InScope(sc, r, RewriteOf(sc, r)) && forall p :: !InBase(sc, r, p)
    ensures !Finds(sc, r, leaf, o, own, n)
    decreases n
  {
    var steps := Steps(sc, r, leaf, o);
    forall i | 0 <= i < |steps| ensures n > 0 ==> !Finds(sc, r, leaf, steps[i].user.obj, own, n - 1) {
      if n > 0 { EmptyBase(sc, r, leaf, steps[i].user.obj, own, n - 1); }
    }
  }
}
