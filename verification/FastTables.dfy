/**
 * The fast paths within the whole check: their answers never contradict the check that dispatches
 * everywhere, also with exclusion, and without exclusion they are true.
 */
module FastTables {
  import opened IteratorStreams
  import opened Model
  import opened Reducers
  import opened Check
  import opened Soundness
  import opened Fixpoint
  import Confluence
  import opened FastPath
  import opened FastMeaning
  import opened TwoSided
  import opened FastTwoSided
  import opened FastUserset
  import opened RecursiveMatch
  import opened RecursiveMeaning

  /** The same world with no fast path chosen anywhere. */
  function Slow(w: World): World {
    w.(fast := imap[])
  }

  lemma SlowLeaf(w: World, g: Goal, leaf: Rewrite)
    requires (g.obj.typ, g.relation) in w.relations
    ensures LeafTuples(Slow(w), g, leaf) == LeafTuples(w, g, leaf)
    ensures LeafTargets(Slow(w), g, leaf) == LeafTargets(w, g, leaf)
  {
    assert forall o, r :: Slow(w).Rows(o, r) == w.Rows(o, r);
    if leaf.TupleToUserset? { SlowParents(w, Visible(LeafTuples(w, g, leaf)), leaf.computed, g.user); }
  }

  lemma {:induction false} SlowParents(w: World, rows: seq<Row>, computed: string, user: User)
    ensures ParentTargets(Slow(w), rows, computed, user) == ParentTargets(w, rows, computed, user)
  {
    if rows != [] { SlowParents(w, rows[1..], computed, user); }
  }

  // ------------------------------------------------------------ with and without fast paths

  /** Whatever dispatching derives for a leaf, its fast path answers. */
  ghost predicate FastAgrees(w: World) {
    forall g, leaf :: (g, leaf) in w.fast ==> EntryAgrees(w, g, leaf)
  }

  ghost predicate EntryAgrees(w: World, g: Goal, leaf: Rewrite)
    requires (g, leaf) in w.fast
  {
    (g.obj.typ, g.relation) in w.relations && !w.fast[(g, leaf)].Fails? ==>
      SlowAnswers(Slow(w), LeafTargets(w, g, leaf), EndsInError(LeafTuples(w, g, leaf)), w.fast[(g, leaf)].allowed)
  }

  /** A derivation without fast paths and one with them do not disagree. */
  lemma {:induction false} DerivesAgree(w: World, n: nat, m: nat, g: Goal, b: bool)
    requires FastAgrees(w) && Derives(Slow(w), n, g, b)
    ensures !Derives(w, m, g, !b)
    decreases n, 0
  {
    if m > 0 && !SelfDefining(g) && w.paths[PathOf(g)] {
      RewriteAgrees(w, n - 1, m - 1, g, w.relations[(g.obj.typ, g.relation)].rewrite, b);
    }
  }

  lemma {:induction false} RewriteAgrees(w: World, n: nat, m: nat, g: Goal, rw: Rewrite, b: bool)
    requires FastAgrees(w) && (g.obj.typ, g.relation) in w.relations && RewriteDerives(Slow(w), n, g, rw, b)
    ensures !RewriteDerives(w, m, g, rw, !b)
    decreases n, 4, rw
  {
    match rw
    case This => DirectlyAgrees(w, n, m, g, b);
    case Computed(relation) => DerivesAgree(w, n, m, g.(relation := relation), b);
    case TupleToUserset(_, _) =>
      SlowLeaf(w, g, rw);
      LeafAgrees(w, n, m, g, rw, b);
    case Union(children) =>
      forall i | 0 <= i < |children| && RewriteDerives(Slow(w), n, g, children[i], b)
        ensures !RewriteDerives(w, m, g, children[i], !b)
      {
        RewriteAgrees(w, n, m, g, children[i], b);
      }
    case Intersection(children) =>
      forall i | 0 <= i < |children| && RewriteDerives(Slow(w), n, g, children[i], b)
        ensures !RewriteDerives(w, m, g, children[i], !b)
      {
        RewriteAgrees(w, n, m, g, children[i], b);
      }
    case Difference(base, subtract) =>
      if RewriteDerives(Slow(w), n, g, base, b) { RewriteAgrees(w, n, m, g, base, b); }
      if RewriteDerives(Slow(w), n, g, subtract, !b) { RewriteAgrees(w, n, m, g, subtract, !b); }
  }

  lemma {:induction false} DirectlyAgrees(w: World, n: nat, m: nat, g: Goal, b: bool)
    requires FastAgrees(w) && (g.obj.typ, g.relation) in w.relations && DirectlyDerives(Slow(w), n, g, b)
    ensures !DirectlyDerives(w, m, g, !b)
    decreases n, 3
  {
    var rel := w.relations[(g.obj.typ, g.relation)];
    SlowLeaf(w, g, This);
    SlowTuples(w, rel, g);
    if ConsultsDerive(Slow(w), n, g, This, LeafTargets(w, g, This), EndsInError(LeafTuples(w, g, This)), b) {
      LeafAgrees(w, n, m, g, This, b);
    }
  }

  lemma SlowTuples(w: World, rel: Relation, g: Goal)
    ensures TupleOutcomes(Slow(w), rel, g) == TupleOutcomes(w, rel, g)
  {
    assert Slow(w).Rows(g.obj, g.relation) == w.Rows(g.obj, g.relation);
  }

  lemma {:induction false} LeafAgrees(w: World, n: nat, m: nat, g: Goal, leaf: Rewrite, b: bool)
    requires FastAgrees(w) && (g.obj.typ, g.relation) in w.relations
    requires TargetsDerive(Slow(w), n, LeafTargets(w, g, leaf), EndsInError(LeafTuples(w, g, leaf)), b)
    ensures !ConsultsDerive(w, m, g, leaf, LeafTargets(w, g, leaf), EndsInError(LeafTuples(w, g, leaf)), !b)
    decreases n, 2
  {
    var targets := LeafTargets(w, g, leaf);
    if (g, leaf) in w.fast {
      assert EntryAgrees(w, g, leaf);
    } else {
      forall i | 0 <= i < |targets| && Derives(Slow(w), n, targets[i], b) ensures !Derives(w, m, targets[i], !b) {
        DerivesAgree(w, n, m, targets[i], b);
      }
    }
  }

  /**
   * Any unflagged answer of the check that uses fast paths is that of any unflagged answer of the check
   * that uses none, whatever the paths, depths, orders of arrival and sound caches of the two.
   */
  lemma FastAndSlowAgree(fast: Env, slow: Env, g: Goal, v: set<Goal>, v': set<Goal>, d: nat, d': nat, o: Outcome,
                         p: Outcome)
    requires slow.w == Slow(fast.w) && FastAgrees(fast.w) && CacheSound(fast) && CacheSound(slow)
    requires d <= fast.maxDepth && Resolves(fast, g, v, d, o) && Plain(o)
    requires d' <= slow.maxDepth && Resolves(slow, g, v', d', p) && Plain(p)
    ensures o == p
  {
    ResolvesCoherent(fast, g, v, d, o);
    ResolvesCoherent(slow, g, v', d', p);
    ResolvesSound(fast, g, v, d, o);
    ResolvesSound(slow, g, v', d', p);
    var m: nat :| Derives(fast.w, m, g, o.allowed);
    var n: nat :| Derives(slow.w, n, g, p.allowed);
    DerivesAgree(fast.w, n, m, g, p.allowed);
  }

  // ------------------------------------------------------------ the rules do not look at the table

  lemma {:induction false} RuleIgnoresTable(w: World, s: iset<Goal>, g: Goal, rw: Rewrite)
    requires (g.obj.typ, g.relation) in w.relations
    ensures RewriteRule(Slow(w), s, g, rw) <==> RewriteRule(w, s, g, rw)
  {
    match rw
    case This =>
      SlowLeaf(w, g, rw);
      SlowTuples(w, w.relations[(g.obj.typ, g.relation)], g);
    case Computed(_) =>
    case TupleToUserset(_, _) => SlowLeaf(w, g, rw);
    case Union(children) =>
      forall i | 0 <= i < |children| { RuleIgnoresTable(w, s, g, children[i]); }
    case Intersection(children) =>
      forall i | 0 <= i < |children| { RuleIgnoresTable(w, s, g, children[i]); }
    case Difference(_, _) =>
  }

  lemma {:induction false} LevelIgnoresTable(w: World, n: nat)
    ensures Level(Slow(w), n, {}) == Level(w, n, {})
  {
    if n > 0 {
      LevelIgnoresTable(w, n - 1);
      forall g ensures g in Level(Slow(w), n, {}) <==> g in Level(w, n, {}) {
        if (g.obj.typ, g.relation) in w.relations {
          RuleIgnoresTable(w, Level(w, n - 1, {}), g, w.relations[(g.obj.typ, g.relation)].rewrite);
        }
      }
    }
  }

  lemma LfpIgnoresTable(w: World)
    ensures Lfp(Slow(w)) == Lfp(w)
  {
    forall g ensures g in Lfp(Slow(w)) <==> g in Lfp(w) {
      if n: nat :| g in Level(Slow(w), n, {}) { LevelIgnoresTable(w, n); }
      if n: nat :| g in Level(w, n, {}) { LevelIgnoresTable(w, n); }
    }
  }

  // ------------------------------------------------------------ filling the table

  /** The world in which a fast path is chosen for one more leaf. */
  function WithEntry(w: World, g: Goal, leaf: Rewrite, e: FastAnswer): World {
    w.(fast := w.fast[(g, leaf) := e])
  }

  /** What the answer of a fast path is for the rest of the check. */
  function OutcomeOf(a: Answer): Outcome {
    if a.err then Err else Resp(a.allowed, false)
  }

  /** The table agrees with dispatching, and without exclusion it is true. */
  ghost predicate Faithful(w: World) {
    FastAgrees(w) && (ExclusionFree(w) ==> FastTruth(w))
  }

  lemma EmptyFaithful(w: World)
    requires w.fast == imap[]
    ensures Faithful(w)
  {
  }

  /** An entry that agrees with dispatching and is true may be added. */
  lemma EntryFaithful(w: World, g: Goal, leaf: Rewrite, e: FastAnswer)
    requires Faithful(w) && (g.obj.typ, g.relation) in w.relations
    requires !e.Fails? ==> SlowAnswers(Slow(w), LeafTargets(w, g, leaf), EndsInError(LeafTuples(w, g, leaf)), e.allowed)
    requires !e.Fails? && ExclusionFree(w) ==> (e.allowed <==> LeafHolds(w, Lfp(w), g, leaf))
    ensures Faithful(WithEntry(w, g, leaf, e))
  {
    var w' := WithEntry(w, g, leaf, e);
    assert Slow(w') == Slow(w);
    LfpIgnoresTable(w);
    LfpIgnoresTable(w');
    forall h, l | (h, l) in w'.fast ensures EntryAgrees(w', h, l) && (ExclusionFree(w) ==> FastTrue(w', h, l)) {
      if (h.obj.typ, h.relation) in w.relations {
        SlowLeaf(w, h, l);
        SlowLeaf(w', h, l);
      }
      if (h, l) != (g, leaf) {
        assert (h, l) in w.fast && EntryAgrees(w, h, l) && (ExclusionFree(w) ==> FastTrue(w, h, l));
      }
    }
  }

  /**
   * Choosing checkTTUFastPathV2 for one more leaf keeps the table faithful, and each of its runs does what
   * the entry says.
   */
  method AddTTU(w: World, g: Goal, tupleset: string, computed: string, sides: map<string, Side>, pick: nat -> nat,
                leftFirst: nat -> bool)
    returns (a: Answer)
    requires Faithful(w) && (g.obj.typ, g.relation) in w.relations
    requires ParentsOk(Slow(w), g, tupleset, computed, sides) && SidesComplete(sides) && TypesOk(w)
    requires (forall t :: t in w.types ==> ':' !in t)
    ensures var e := MayFail(SomeParentMember(Slow(w), g, Visible(w.Rows(g.obj, tupleset)), computed, sides));
      FastMay(e, OutcomeOf(a)) && Faithful(WithEntry(w, g, TupleToUserset(tupleset, computed), e))
  {
    a := CheckTTUFastPathV2(Slow(w), g, tupleset, computed, sides, pick, leftFirst);
    TTUEntry(w, g, tupleset, computed, sides);
  }

  lemma TTUEntry(w: World, g: Goal, tupleset: string, computed: string, sides: map<string, Side>)
    requires Faithful(w) && (g.obj.typ, g.relation) in w.relations
    requires ParentsOk(Slow(w), g, tupleset, computed, sides) && SidesComplete(sides)
    ensures var e := MayFail(SomeParentMember(Slow(w), g, Visible(w.Rows(g.obj, tupleset)), computed, sides));
      Faithful(WithEntry(w, g, TupleToUserset(tupleset, computed), e))
  {
    var leaf := TupleToUserset(tupleset, computed);
    ParentsAnswer(Slow(w), g, tupleset, computed, sides);
    if ExclusionFree(w) { ParentsInLfp(Slow(w), g, tupleset, computed, sides); }
    SlowLeaf(w, g, leaf);
    LfpIgnoresTable(w);
    EntryFaithful(w, g, leaf, MayFail(SomeParentMember(Slow(w), g, Visible(w.Rows(g.obj, tupleset)), computed, sides)));
  }

  /** What checkUsersetFastPathV2 looks for: an admitted relation with the object of some userset tuple. */
  ghost predicate FindsUserset(w: World, g: Goal, sides: map<(string, string), Side>)
    requires (g.obj.typ, g.relation) in w.relations
  {
    var rel := w.relations[(g.obj.typ, g.relation)];
    SomeObjectMember(rel, Visible(UsersetRows(w, rel, g)), ScopesOf(sides))
  }

  /** Choosing checkUsersetFastPathV2 does, unless it allows and the admitted relations are not interchangeable. */
  method AddUserset(w: World, g: Goal, sides: map<(string, string), Side>, pick: nat -> nat, leftFirst: nat -> bool)
    returns (a: Answer)
    requires Faithful(w) && UsersetsOk(Slow(w), g, sides) && UsersetsComplete(sides)
    ensures ScopesReady(Slow(w), g.user, w.relations[(g.obj.typ, g.relation)], ScopesOf(sides))
    ensures var e := MayFail(FindsUserset(w, g, sides));
      && FastMay(e, OutcomeOf(a))
      && (!e.allowed || Interchangeable(Slow(w), g.user, w.relations[(g.obj.typ, g.relation)], ScopesOf(sides)) ==>
            Faithful(WithEntry(w, g, This, e)))
  {
    SlowLeaf(w, g, This);
    a := CheckUsersetFastPathV2(Slow(w), g, sides, pick, leftFirst);
    UsersetEntry(w, g, sides);
  }

  lemma UsersetEntry(w: World, g: Goal, sides: map<(string, string), Side>)
    requires Faithful(w) && UsersetsOk(Slow(w), g, sides) && UsersetsComplete(sides)
    ensures ScopesReady(Slow(w), g.user, w.relations[(g.obj.typ, g.relation)], ScopesOf(sides))
    ensures
      || !FindsUserset(w, g, sides)
      || Interchangeable(Slow(w), g.user, w.relations[(g.obj.typ, g.relation)], ScopesOf(sides))
      ==> Faithful(WithEntry(w, g, This, MayFail(FindsUserset(w, g, sides))))
  {
    ObjectsAnswer(Slow(w), g, sides);
    SlowLeaf(w, g, This);
    LfpIgnoresTable(w);
    if !FindsUserset(w, g, sides) ||
      Interchangeable(Slow(w), g.user, w.relations[(g.obj.typ, g.relation)], ScopesOf(sides)) {
      EntryFaithful(w, g, This, MayFail(FindsUserset(w, g, sides)));
    }
  }

  /** Choosing the recursive fast path does, unless it allows and the model admits a detour. */
  method AddRecursive(w: World, sc: Scope, r: string, leaf: Rewrite, o: Object, leaves: map<string, seq<Msg>>,
                      parents: seq<RightMsg>, graph: Graph,
                      depth: nat, maxDepth: nat, userFirst: nat -> bool)
    returns (a: Answer)
    requires Faithful(w) && sc.w == Slow(w) && RecursiveReady(sc, r, leaf) && ListsAll(sc) && o.typ == sc.typ
    requires LeavesOk(sc, leaves)
    requires Delivers(sc, r, leaf, o, parents) && GraphOk(sc, r, leaf, graph) && depth < maxDepth
    ensures var e := MayFail(SearchFinds(sc, r, leaf, o));
      && FastMay(e, OutcomeOf(a))
      && (!e.allowed || !Detour(sc, r, leaf) ==> Faithful(WithEntry(w, Goal(o, r, sc.user), leaf, e)))
  {
    a := RecursiveFastPathV2(sc, r, leaf, o, leaves, parents, graph, depth, maxDepth, userFirst);
    if !SearchFinds(sc, r, leaf, o) || !Detour(sc, r, leaf) { RecursiveEntry(w, sc, r, leaf, o); }
  }

  lemma RecursiveEntry(w: World, sc: Scope, r: string, leaf: Rewrite, o: Object)
    requires Faithful(w) && sc.w == Slow(w) && RecursiveReady(sc, r, leaf) && ListsAll(sc) && o.typ == sc.typ
    requires !SearchFinds(sc, r, leaf, o) || !Detour(sc, r, leaf)
    ensures Faithful(WithEntry(w, Goal(o, r, sc.user), leaf, MayFail(SearchFinds(sc, r, leaf, o))))
  {
    SearchMeans(sc, r, leaf, o);
    RecursiveTargets(w, sc, r, leaf, o);
    LfpIgnoresTable(w);
    EntryFaithful(w, Goal(o, r, sc.user), leaf, MayFail(SearchFinds(sc, r, leaf, o)));
  }

  lemma RecursiveTargets(w: World, sc: Scope, r: string, leaf: Rewrite, o: Object)
    requires sc.w == Slow(w) && RecursiveReady(sc, r, leaf) && o.typ == sc.typ
    ensures var g := Goal(o, r, sc.user);
      LeafTargets(w, g, leaf) == TargetsOf(sc, r, leaf, o) && LeafTuples(w, g, leaf) == LeafRows(sc, r, leaf, o)
  {
    SlowLeaf(w, Goal(o, r, sc.user), leaf);
  }

  // ------------------------------------------------------------ a group that is its own member

  /** The relation is assigned to users and to itself, and its only tuple assigns it to itself. */
  ghost predicate SelfAssigned(w: World, g: Goal) {
    && g.user.relation == "" && g.relation != ""
    && Confluence.Defines(w, g, Relation(This, [Direct(g.user.obj.typ), Userset(g.obj.typ, g.relation)]),
         [Row(User(g.obj, g.relation), Met)])
  }

  lemma OnlyItself(w: World, g: Goal)
    requires SelfAssigned(w, g)
    ensures var rel := w.relations[(g.obj.typ, g.relation)];
      && HasUsersets(rel) && (forall i :: 0 <= i < |TupleOutcomes(w, rel, g)| ==> TupleOutcomes(w, rel, g)[i] == DENIED)
      && LeafTargets(w, g, This) != [] && (forall t :: t in LeafTargets(w, g, This) ==> t == g)
  {
    var rel := w.relations[(g.obj.typ, g.relation)];
    assert rel.restrictions[1] == Userset(g.obj.typ, g.relation);
    Confluence.OnlyRow(w, rel, g, Row(User(g.obj, g.relation), Met));
  }

  lemma {:induction false} SelfUnprovable(w: World, g: Goal, n: nat)
    requires SelfAssigned(w, g)
    ensures g !in Level(w, n, {})
  {
    if n > 0 {
      SelfUnprovable(w, g, n - 1);
      OnlyItself(w, g);
    }
  }

  lemma {:induction false} SelfUndecided(w: World, g: Goal, n: nat, b: bool)
    requires SelfAssigned(w, g) && w.fast == imap[]
    ensures !Derives(w, n, g, b)
  {
    if n > 0 {
      SelfUndecided(w, g, n - 1, b);
      OnlyItself(w, g);
      var targets := LeafTargets(w, g, This);
      assert targets[0] in targets && forall i :: 0 <= i < |targets| ==> targets[i] in targets;
      assert !TargetsDerive(w, n - 1, targets, EndsInError(LeafTuples(w, g, This)), b);
      assert !DirectlyDerives(w, n - 1, g, b);
    }
  }

  lemma DeniedUnion(fixed: seq<Outcome>)
    requires forall i :: 0 <= i < |fixed| ==> fixed[i] == DENIED
    ensures MayUnion(fixed + [DENIED], DENIED)
  {
    var all := fixed + [DENIED];
    assert forall i :: 0 <= i < |all| ==> all[i] == DENIED;
    UnionConfluent(all, DENIED);
  }

  /**
   * Without fast paths nothing is derivable about a group whose only member is itself. The fast path
   * denies it without a flag, so that the denial is stored; it is true, as the least fixpoint says.
   */
  lemma SelfGroup(w: World, g: Goal, maxDepth: nat)
    requires SelfAssigned(w, g) && maxDepth > 0 && (g, This) in w.fast && w.fast[(g, This)] == Answers(false)
    ensures Resolves(Env(w, maxDepth, {}), g, {}, 0, DENIED) && Settles(w, g, false)
    ensures g !in Lfp(w) && forall b :: !Settles(Slow(w), g, b)
  {
    var env := Env(w, maxDepth, {});
    OnlyItself(w, g);
    DeniedUnion(TupleOutcomes(w, w.relations[(g.obj.typ, g.relation)], g));
    assert Consults(env, g, This, LeafTargets(w, g, This), EndsInError(LeafTuples(w, g, This)), {} + {g}, 0, DENIED);
    Confluence.ResolvesDirectly(env, g, {}, 0, DENIED);
    assert Derives(w, 1, g, false);
    forall n: nat ensures g !in Level(w, n, {}) { SelfUnprovable(w, g, n); }
    forall b, n: nat ensures !Derives(Slow(w), n, g, b) { SelfUndecided(Slow(w), g, n, b); }
  }
}
