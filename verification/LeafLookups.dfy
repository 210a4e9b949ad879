/** What a leaf of a rewrite looks up and asks about, spelled out by the stored tuples. */
module LeafLookups {
  import opened Model
  import opened Reducers
  import opened Check
  import opened Completeness

  /** A tuple of the goal's object and relation for the given user, with the given condition. */
  predicate Holds(w: World, g: Goal, user: User, cond: Condition) {
    Row(user, cond) in w.Rows(g.obj, g.relation)
  }

  /** Stored tuples are unique per object, relation and user. */
  ghost predicate OneEach(w: World, g: Goal) {
    var rows := w.Rows(g.obj, g.relation);
    forall i, j :: 0 <= i < j < |rows| ==> rows[i].user != rows[j].user
  }

  // ------------------------------------------------------------ the lookups

  /** The lookup of the user's own tuple: allowed, an error or denied, as its condition is met, broken or neither. */
  lemma DirectLookup(w: World, g: Goal)
    requires OneEach(w, g)
    ensures DirectOutcome(w, g) ==
      if Holds(w, g, g.user, Met) then ALLOWED else if Holds(w, g, g.user, Broken) then Err else DENIED
  {
    var rows, mine := w.Rows(g.obj, g.relation), DirectRows(w, g);
    forall c | Holds(w, g, g.user, c) ensures mine != [] && mine[0].cond == c {
      assert Row(g.user, c) in mine && mine[0] in mine;
      var i :| 0 <= i < |rows| && rows[i] == Row(g.user, c);
      var j :| 0 <= j < |rows| && rows[j] == mine[0];
      assert i == j;
    }
    if mine != [] {
      assert mine[0] in mine && mine[0] == Row(g.user, mine[0].cond);
      assert Holds(w, g, g.user, mine[0].cond);
    }
  }

  /** The lookup of the wildcard of the user's type: an error only if no such tuple is met and one is broken. */
  lemma PublicLookup(w: World, g: Goal)
    ensures var everyone := User(Object(g.user.obj.typ, "*"), "");
      PublicOutcome(w, g) ==
        if Holds(w, g, everyone, Met) then ALLOWED else if Holds(w, g, everyone, Broken) then Err else DENIED
  {
    var everyone, all := User(Object(g.user.obj.typ, "*"), ""), PublicRows(w, g);
    assert Holds(w, g, everyone, Met) <==> Visible(all) != [] by {
      if Holds(w, g, everyone, Met) { assert Row(everyone, Met) in Visible(all); }
      if Visible(all) != [] { assert Visible(all)[0] in Visible(all) && Visible(all)[0] == Row(everyone, Met); }
    }
    assert Holds(w, g, everyone, Broken) <==> exists i :: 0 <= i < |all| && all[i].cond.Broken? by {
      if Holds(w, g, everyone, Broken) { assert Row(everyone, Broken) in all; }
      if i :| 0 <= i < |all| && all[i].cond.Broken? { assert all[i] in all && all[i] == Row(everyone, Broken); }
    }
  }

  /**
   * The lookups of a direct assignment allow exactly if a met tuple names the user and the relation admits its
   * type, or a met tuple names everyone of that type, the relation admits this, and the user is no userset.
   */
  lemma LookupsExact(w: World, rel: Relation, g: Goal)
    requires OneEach(w, g)
    ensures ALLOWED in TupleOutcomes(w, rel, g) <==>
      || (Holds(w, g, g.user, Met) && AdmitsUser(rel, g.user))
      || (Holds(w, g, User(Object(g.user.obj.typ, "*"), ""), Met) && AdmitsEveryone(rel, g.user))
    ensures Err in TupleOutcomes(w, rel, g) <==>
      || (Holds(w, g, g.user, Broken) && AdmitsUser(rel, g.user))
      || (Holds(w, g, User(Object(g.user.obj.typ, "*"), ""), Broken) && AdmitsEveryone(rel, g.user) &&
          !Holds(w, g, User(Object(g.user.obj.typ, "*"), ""), Met))
  {
    DirectLookup(w, g);
    PublicLookup(w, g);
  }

  predicate AdmitsUser(rel: Relation, user: User) {
    if user.relation != "" then Userset(user.obj.typ, user.relation) in rel.restrictions
    else Direct(user.obj.typ) in rel.restrictions
  }

  predicate AdmitsEveryone(rel: Relation, user: User) {
    user.relation == "" && Public(user.obj.typ) in rel.restrictions
  }

  // ------------------------------------------------------------ the goals a leaf asks about

  /** The sub-checks of a direct assignment are exactly the goals its met userset tuples ask about. */
  lemma UsersetTargetsExact(w: World, g: Goal, h: Goal)
    requires (g.obj.typ, g.relation) in w.relations
    ensures h in UsersetTargets(Visible(UsersetRows(w, w.relations[(g.obj.typ, g.relation)], g)), g.user) <==>
      UsersetAsks(w, g, h)
  {
    var rows := UsersetRows(w, w.relations[(g.obj.typ, g.relation)], g);
    var visible, targets := Visible(rows), UsersetTargets(Visible(rows), g.user);
    if h in targets {
      var i :| 0 <= i < |targets| && targets[i] == h;
      assert visible[i] in visible && visible[i] in w.Rows(g.obj, g.relation);
    }
    if UsersetAsks(w, g, h) {
      var row :| row in w.Rows(g.obj, g.relation) && row.cond == Met && row.user.relation != "" &&
        Userset(row.user.obj.typ, row.user.relation) in w.relations[(g.obj.typ, g.relation)].restrictions &&
        h == Goal(row.user.obj, row.user.relation, g.user);
      assert row in rows && row in visible;
      var i :| 0 <= i < |visible| && visible[i] == row;
      assert targets[i] == h;
    }
  }

  /** And those of a tuple-to-userset the goals its met tuples ask about. */
  lemma ParentTargetsExact(w: World, g: Goal, tupleset: string, computed: string, h: Goal)
    ensures h in ParentTargets(w, Visible(w.Rows(g.obj, tupleset)), computed, g.user) <==>
      ParentAsks(w, g, tupleset, computed, h)
  {
    var rows := w.Rows(g.obj, tupleset);
    var visible, targets := Visible(rows), ParentTargets(w, Visible(rows), computed, g.user);
    if h in targets {
      var i :| 0 <= i < |visible| && h == Goal(visible[i].user.obj, computed, g.user) &&
        !SkipsParent(w, visible[i].user.obj.typ, computed);
      assert visible[i] in visible;
    }
    if ParentAsks(w, g, tupleset, computed, h) {
      var row :| row in rows && row.cond == Met && h == Goal(row.user.obj, computed, g.user) &&
        (row.user.obj.typ in w.types ==> (row.user.obj.typ, computed) in w.relations);
      assert row in visible;
      var i :| 0 <= i < |visible| && visible[i] == row;
      assert !SkipsParent(w, visible[i].user.obj.typ, computed);
    }
  }

  // ------------------------------------------------------------ a read that fails

  /** Every condition of the tuples read is broken or unmet, and one is broken. */
  predicate NoneMet(rows: seq<Row>) {
    (forall row :: row in rows ==> row.cond != Met) && exists row :: row in rows && row.cond == Broken
  }

  lemma NoneMetFails(rows: seq<Row>)
    ensures EndsInError(rows) <==> NoneMet(rows)
  {
    assert Visible(rows) == [] <==> forall row :: row in rows ==> row.cond != Met by {
      if Visible(rows) != [] { assert Visible(rows)[0] in Visible(rows); }
    }
    if row :| row in rows && row.cond == Broken {
      var i :| 0 <= i < |rows| && rows[i] == row;
    }
  }

  /** A tuple-to-userset whose tuples are all unmet or broken, and one is broken, fails. */
  lemma BrokenTuplesetFails(env: Env, g: Goal, leaf: Rewrite, visited: set<Goal>, depth: nat, o: Outcome)
    requires depth < env.maxDepth && (g.obj.typ, g.relation) in env.w.relations
    requires leaf.TupleToUserset? && (g, leaf) !in env.w.fast && NoneMet(env.w.Rows(g.obj, leaf.tupleset))
    requires Rewrites(env, g, visited, depth, leaf, o)
    ensures o == Err
  {
    var rows := env.w.Rows(g.obj, leaf.tupleset);
    NoneMetFails(rows);
    var targets := ParentTargets(env.w, Visible(rows), leaf.computed, g.user);
    assert targets == [];
    NothingDispatched(env, visited, depth, o);
  }

  lemma NothingDispatched(env: Env, visited: set<Goal>, depth: nat, o: Outcome)
    requires depth < env.maxDepth && Dispatches(env, [], true, visited, depth, o)
    ensures o == Err
  {
    var outs, tail := SubOutcomes(env, [], true, visited, depth, o);
    assert outs + tail == [Err];
    UnionConfluent([Err], o);
  }

  /** So does a direct assignment whose userset tuples are, unless a lookup allows. */
  lemma BrokenUsersetsFail(env: Env, g: Goal, visited: set<Goal>, depth: nat, o: Outcome)
    requires depth < env.maxDepth && (g.obj.typ, g.relation) in env.w.relations
    requires HasUsersets(env.w.relations[(g.obj.typ, g.relation)]) && (g, This) !in env.w.fast
    requires var rel := env.w.relations[(g.obj.typ, g.relation)];
      NoneMet(UsersetRows(env.w, rel, g)) && ALLOWED !in TupleOutcomes(env.w, rel, g)
    requires Directly(env, g, visited, depth, o)
    ensures o == Err
  {
    var rel := env.w.relations[(g.obj.typ, g.relation)];
    NoneMetFails(UsersetRows(env.w, rel, g));
    var targets, readFails, u := UsersetHandler(env, g, visited, depth, o);
    assert targets == [] && readFails;
    NothingDispatched(env, visited, depth, u);
    LookupsFail(env.w, rel, g, u, o);
  }

  lemma LookupsFail(w: World, rel: Relation, g: Goal, u: Outcome, o: Outcome)
    requires u == Err && ALLOWED !in TupleOutcomes(w, rel, g) && MayUnion(TupleOutcomes(w, rel, g) + [u], o)
    ensures o == Err
  {
    var all := TupleOutcomes(w, rel, g) + [u];
    UnionConfluent(all, o);
    TupleOutcomesUnflagged(w, rel, g);
    assert all[|all| - 1] == Err;
    forall i | 0 <= i < |all| ensures !Allows(all[i]) {
      if i < |all| - 1 { assert all[i] in TupleOutcomes(w, rel, g); }
    }
  }
}
