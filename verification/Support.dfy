/** Every provable goal is supported by stored tuples that lead from its object to its user. */
module Support {
  import opened Model
  import opened Reducers
  import opened Check
  import opened Soundness
  import opened Fixpoint

  /**
   * Met tuples lead from `o` to the user in `n` steps: `o` is the user's own object, or a tuple of `o`, under
   * any relation, names the user, the wildcard of the user's type, or an object from which tuples lead on.
   */
  ghost predicate LeadsIn(w: World, o: Object, user: User, n: nat)
    decreases n, 0
  {
    || user.obj == o
    || (n > 0 && exists r, row :: row in w.Rows(o, r) && row.cond == Met && Reached(w, row, user, n - 1))
  }

  ghost predicate Reached(w: World, row: Row, user: User, n: nat)
    decreases n, 1
  {
    row.user == user || row.user == User(Object(user.obj.typ, "*"), "") || LeadsIn(w, row.user.obj, user, n)
  }

  ghost predicate Leads(w: World, o: Object, user: User) {
    exists n: nat :: LeadsIn(w, o, user, n)
  }

  lemma LeadsByTuple(w: World, o: Object, r: string, row: Row, user: User)
    requires row in w.Rows(o, r) && row.cond == Met
    requires row.user == user || row.user == WildcardOf(user.obj.typ) || Leads(w, row.user.obj, user)
    ensures Leads(w, o, user)
  {
    var n: nat := if Leads(w, row.user.obj, user) then var n: nat :| LeadsIn(w, row.user.obj, user, n); n else 0;
    assert Reached(w, row, user, n);
    assert LeadsIn(w, o, user, n + 1);
  }

  // ------------------------------------------------------------ the least fixpoint

  lemma LookupLeads(w: World, rel: Relation, g: Goal)
    requires ALLOWED in TupleOutcomes(w, rel, g)
    ensures Leads(w, g.obj, g.user)
  {
    var direct, public := DirectRows(w, g), PublicRows(w, g);
    if DirectlyRelated(rel, g.user) && DirectOutcome(w, g) == ALLOWED {
      assert direct[0] in direct;
      LeadsByTuple(w, g.obj, g.relation, direct[0], g.user);
    } else {
      assert PublicOutcome(w, g) == ALLOWED;
      var row := Visible(public)[0];
      assert row in Visible(public) && row in public;
      LeadsByTuple(w, g.obj, g.relation, row, g.user);
    }
  }

  lemma UsersetLeads(w: World, rel: Relation, g: Goal, i: nat)
    requires var targets := UsersetTargets(Visible(UsersetRows(w, rel, g)), g.user);
      i < |targets| && Leads(w, targets[i].obj, g.user)
    ensures Leads(w, g.obj, g.user)
  {
    var visible := Visible(UsersetRows(w, rel, g));
    assert visible[i] in visible && visible[i] in UsersetRows(w, rel, g);
    LeadsByTuple(w, g.obj, g.relation, visible[i], g.user);
  }

  lemma ParentLeads(w: World, g: Goal, tupleset: string, computed: string, i: nat)
    requires var targets := ParentTargets(w, Visible(w.Rows(g.obj, tupleset)), computed, g.user);
      i < |targets| && Leads(w, targets[i].obj, g.user)
    ensures Leads(w, g.obj, g.user)
  {
    var visible := Visible(w.Rows(g.obj, tupleset));
    var targets := ParentTargets(w, visible, computed, g.user);
    assert targets[i] in targets;
    var j :| 0 <= j < |visible| && targets[i] == Goal(visible[j].user.obj, computed, g.user);
    assert visible[j] in visible;
    LeadsByTuple(w, g.obj, tupleset, visible[j], g.user);
  }

  ghost function Supported(w: World): iset<Goal> {
    iset g: Goal | Leads(w, g.obj, g.user)
  }

  lemma {:induction false} RewriteSupported(w: World, g: Goal, rw: Rewrite)
    requires (g.obj.typ, g.relation) in w.relations && RewriteRule(w, Supported(w), g, rw)
    ensures Leads(w, g.obj, g.user)
    decreases rw
  {
    match rw
    case This =>
      var rel := w.relations[(g.obj.typ, g.relation)];
      if ALLOWED in TupleOutcomes(w, rel, g) {
        LookupLeads(w, rel, g);
      } else {
        var targets := UsersetTargets(Visible(UsersetRows(w, rel, g)), g.user);
        var i: nat :| i < |targets| && targets[i] in Supported(w);
        UsersetLeads(w, rel, g, i);
      }
    case Computed(_) =>
    case TupleToUserset(tupleset, computed) =>
      var targets := ParentTargets(w, Visible(w.Rows(g.obj, tupleset)), computed, g.user);
      var i: nat :| i < |targets| && targets[i] in Supported(w);
      assert targets[i] in targets;
      ParentLeads(w, g, tupleset, computed, i);
    case Union(children) =>
      var i :| 0 <= i < |children| && RewriteRule(w, Supported(w), g, children[i]);
      RewriteSupported(w, g, children[i]);
    case Intersection(children) => RewriteSupported(w, g, children[0]);
  }

  /** Tuples lead from the object of every provable goal to its user. */
  lemma LfpSupported(w: World, g: Goal)
    requires g in Lfp(w)
    ensures Leads(w, g.obj, g.user)
  {
    forall h | Rule(w, Supported(w), h) ensures h in Supported(w) {
      if SelfDefining(h) {
        assert LeadsIn(w, h.obj, h.user, 0);
      } else {
        RewriteSupported(w, h, w.relations[(h.obj.typ, h.relation)].rewrite);
      }
    }
    var n: nat :| g in Level(w, n, {});
    LfpIsLeast(w, Supported(w), n);
  }

  // ------------------------------------------------------------ with exclusion

  /** The same for every goal that is derivably true, in any model, when no fast path is chosen. */
  lemma {:induction false} DerivedSupported(w: World, n: nat, g: Goal)
    requires w.fast == imap[] && Derives(w, n, g, true)
    ensures Leads(w, g.obj, g.user)
    decreases n, 0
  {
    if SelfDefining(g) {
      assert LeadsIn(w, g.obj, g.user, 0);
    } else {
      DerivedRewriteSupported(w, n - 1, g, w.relations[(g.obj.typ, g.relation)].rewrite);
    }
  }

  lemma DerivedTarget(w: World, n: nat, targets: seq<Goal>, readFails: bool) returns (i: nat)
    requires TargetsDerive(w, n, targets, readFails, true)
    ensures i < |targets| && Derives(w, n, targets[i], true)
  {
    i :| i < |targets| && Derives(w, n, targets[i], true);
  }

  lemma {:induction false} DerivedRewriteSupported(w: World, n: nat, g: Goal, rw: Rewrite)
    requires w.fast == imap[] && (g.obj.typ, g.relation) in w.relations && RewriteDerives(w, n, g, rw, true)
    ensures Leads(w, g.obj, g.user)
    decreases n, 4, rw
  {
    match rw
    case This =>
      var rel := w.relations[(g.obj.typ, g.relation)];
      if ALLOWED in TupleOutcomes(w, rel, g) {
        LookupLeads(w, rel, g);
      } else {
        var targets := UsersetTargets(Visible(UsersetRows(w, rel, g)), g.user);
        assert ConsultsDerive(w, n, g, This, targets, EndsInError(UsersetRows(w, rel, g)), true);
        var i := DerivedTarget(w, n, targets, EndsInError(UsersetRows(w, rel, g)));
        DerivedSupported(w, n, targets[i]);
        UsersetLeads(w, rel, g, i);
      }
    case Computed(relation) => DerivedSupported(w, n, g.(relation := relation));
    case TupleToUserset(tupleset, computed) =>
      var targets := ParentTargets(w, Visible(w.Rows(g.obj, tupleset)), computed, g.user);
      var i := DerivedTarget(w, n, targets, EndsInError(w.Rows(g.obj, tupleset)));
      assert targets[i] in targets;
      DerivedSupported(w, n, targets[i]);
      ParentLeads(w, g, tupleset, computed, i);
    case Union(children) =>
      var i :| 0 <= i < |children| && RewriteDerives(w, n, g, children[i], true);
      DerivedRewriteSupported(w, n, g, children[i]);
    case Intersection(children) => DerivedRewriteSupported(w, n, g, children[0]);
    case Difference(base, _) => DerivedRewriteSupported(w, n, g, base);
  }

  /** Without tuples only questions about the user's own object are provable. */
  lemma NothingFromNothing(w: World, g: Goal)
    requires forall o, r :: w.Rows(o, r) == []
    ensures g in Lfp(w) ==> g.user.obj == g.obj
    ensures w.fast == imap[] && Settles(w, g, true) ==> g.user.obj == g.obj
  {
    if g in Lfp(w) { LfpSupported(w, g); }
    if w.fast == imap[] && Settles(w, g, true) {
      var n :| Derives(w, n, g, true);
      DerivedSupported(w, n, g);
    }
  }
}
