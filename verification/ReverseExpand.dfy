/**
 * What the pruned edges are for: following them from a user finds every object the user is related to, and an
 * object found by unflagged edges needs no further check.
 */
module ReverseExpand {
  import Options
  import opened Model
  import opened Reducers
  import opened Check
  import opened Soundness
  import opened Involves
  import opened EdgePlaces
  import opened PrunedEdges

  // ------------------------------------------------------------ following edges

  /** The source an expansion asks edges for: the user's type, its wildcard, or the userset. */
  function SourceOf(u: User): Restriction {
    if u.relation != "" then Userset(u.obj.typ, u.relation)
    else if u.obj.id == "*" then Public(u.obj.typ)
    else Direct(u.obj.typ)
  }

  /** The tuple is read for `u` along a direct edge: it names `u`, or everyone where the relation allows it. */
  predicate ReadFor(rel: Relation, u: User, row: Row) {
    row.cond == Met && (row.user == u ||
      (u.relation == "" && Public(u.obj.typ) in rel.restrictions && row.user == User(Object(u.obj.typ, "*"), "")))
  }

  /** Following the edge from `u` leads to the userset `v`. */
  ghost predicate Moves(w: World, e: Edge, u: User, v: User) {
    && (v.obj.typ, v.relation) == e.target && e.target in w.relations
    && match e.kind
       case DirectEdge => exists row :: row in w.Rows(v.obj, v.relation) && ReadFor(w.relations[e.target], u, row)
       case ComputedUsersetEdge => v.obj == u.obj
       case TupleToUsersetEdge =>
         exists row :: row in w.Rows(v.obj, e.tupleset) && row.cond == Met && row.user == User(u.obj, "")
  }

  /** For every source, the edges towards the target relation. */
  type EdgeTable = Restriction -> seq<Edge>

  /** One step of the expansion. */
  ghost predicate EdgeStep(w: World, edges: EdgeTable, u: User, e: Edge, v: User) {
    e in edges(SourceOf(u)) && Moves(w, e, u, v)
  }

  /** An expansion of the user: the users and usersets it passes and the edges it follows. */
  ghost predicate IsExpansion(w: World, edges: EdgeTable, user: User, us: seq<User>, es: seq<Edge>) {
    |us| == |es| + 1 && us[0] == user && forall i :: 0 <= i < |es| ==> EdgeStep(w, edges, us[i], es[i], us[i + 1])
  }

  /** Some expansion of the user ends at `v`. */
  ghost predicate Finds(w: World, edges: EdgeTable, user: User, v: User) {
    exists us, es :: IsExpansion(w, edges, user, us, es) && us[|es|] == v
  }

  lemma FindsNext(w: World, edges: EdgeTable, user: User, u: User, e: Edge, v: User)
    requires Finds(w, edges, user, u) && EdgeStep(w, edges, u, e, v)
    ensures Finds(w, edges, user, v)
  {
    var us, es :| IsExpansion(w, edges, user, us, es) && us[|es|] == u;
    var us', es' := us + [v], es + [e];
    forall i | 0 <= i < |es'| ensures EdgeStep(w, edges, us'[i], es'[i], us'[i + 1]) {
      if i < |es| { assert EdgeStep(w, edges, us[i], es[i], us[i + 1]); }
    }
    assert IsExpansion(w, edges, user, us', es') && us'[|es'|] == v;
  }

  /** The table holds what GetPrunedRelationshipEdges returns for each source. */
  ghost predicate TableFor(w: World, k: Key, edges: EdgeTable) {
    forall source :: PrunedFor(w, k, source, edges(source))
  }

  /** Every matching place on a pruned path has an edge. */
  lemma PlaceHasEdge(w: World, k: Key, source: Restriction, edges: seq<Edge>, p: Place) returns (e: Edge)
    requires PrunedFor(w, k, source, edges) && Matches(w, source, p) && OnPath(w, k, p.relation)
    ensures e in edges && e.(flagged := false) == EdgeAt(w, source, p).(flagged := false)
  {
    var places :| EveryPlaceOnce(w, k, source, places) && Bag(edges) == Bag(EdgesAt(w, source, places));
    assert p in places;
    var i :| 0 <= i < |places| && places[i] == p;
    var x := EdgeAt(w, source, p).(flagged := false);
    assert Strip(EdgesAt(w, source, places))[i] == x;
    assert x in Bag(EdgesAt(w, source, places));
    assert x in Strip(edges);
    var j :| 0 <= j < |Strip(edges)| && Strip(edges)[j] == x;
    e := edges[j];
  }

  // ------------------------------------------------------------ nothing is missed

  /** Relations have names. */
  ghost predicate NamedRelations(w: World) {
    forall k :: k in w.relations ==> k.1 != ""
  }

  /** The model is valid, the tuples are, and no fast path is chosen. */
  ghost predicate Expandable(w: World) {
    ValidGraph(w) && NamedRelations(w) && TypedRows(w) && w.fast == imap[]
  }

  /** A rewrite derivably true is so at a leaf that pruning keeps. */
  lemma {:induction false} KeptLeaf(w: World, n: nat, g: Goal, rw: Rewrite) returns (pos: seq<nat>)
    requires (g.obj.typ, g.relation) in w.relations && RewriteDerives(w, n, g, rw, true)
    ensures Kept(rw, pos) && Part(rw, pos).Some? && Operands(Part(rw, pos).value) == []
    ensures RewriteDerives(w, n, g, Part(rw, pos).value, true)
    decreases rw
  {
    if Operands(rw) == [] {
      pos := [];
    } else {
      var i: nat := 0;
      if rw.Union? { i :| i < |rw.children| && RewriteDerives(w, n, g, rw.children[i], true); }
      var below := KeptLeaf(w, n, g, Operands(rw)[i]);
      pos := [i] + below;
      assert pos[1..] == below;
    }
  }

  /** The kept leaves of a valid rewrite are valid. */
  lemma {:induction false} PartValid(w: World, typ: string, rw: Rewrite, pos: seq<nat>)
    requires RefsDefined(w, typ, rw) && Traversable(w, typ, rw) && Part(rw, pos).Some?
    ensures RefsDefined(w, typ, Part(rw, pos).value) && Traversable(w, typ, Part(rw, pos).value)
    decreases |pos|
  {
    if pos != [] { PartValid(w, typ, Operands(rw)[pos[0]], pos[1..]); }
  }

  /** The edge of a matching place on a pruned path can be followed. */
  lemma FollowsPlace(w: World, k: Key, edges: EdgeTable, user: User, u: User, p: Place, v: User)
    requires TableFor(w, k, edges) && Finds(w, edges, user, u)
    requires Matches(w, SourceOf(u), p) && OnPath(w, k, p.relation) && Moves(w, EdgeAt(w, SourceOf(u), p), u, v)
    ensures Finds(w, edges, user, v)
  {
    assert PrunedFor(w, k, SourceOf(u), edges(SourceOf(u)));
    var e := PlaceHasEdge(w, k, SourceOf(u), edges(SourceOf(u)), p);
    FindsNext(w, edges, user, u, e, v);
  }

  lemma StartFound(w: World, edges: EdgeTable, user: User)
    ensures Finds(w, edges, user, user)
  {
    assert IsExpansion(w, edges, user, [user], []);
  }

  /** A reference on a pruned path leads on along pruned paths. */
  lemma OnPathNext(w: World, k: Key, a: Key, pos: seq<nat>, c: Key)
    requires OnPath(w, k, a) && a in w.relations && c in w.relations
    requires RefersAt(w, a, w.relations[a].rewrite, pos, c, Inside(w.relations[a].rewrite, pos))
    ensures OnPath(w, k, c)
  {
    var r := Inside(w.relations[a].rewrite, pos);
    assert PrunedRef(w, a, c, r);
    var f := Path(w, k, a, true);
    var n: nat :| PathIn(w, k, a, f, n);
    PathSnoc(w, k, a, f, n, c, r);
  }

  lemma RowIsTyped(w: World, o: Object, r: string, row: Row)
    requires TypedRows(w) && row in w.Rows(o, r)
    ensures (o.typ, r) in w.relations && RowTyped(w.relations[(o.typ, r)], row)
  {
    var i: nat :| i < |w.Rows(o, r)| && w.Rows(o, r)[i] == row;
  }

  /** A tuple found by a lookup names the user or the wildcard of its type. */
  lemma LookupRow(w: World, rel: Relation, g: Goal) returns (row: Row)
    requires ALLOWED in TupleOutcomes(w, rel, g)
    ensures row in w.Rows(g.obj, g.relation) && ReadFor(rel, g.user, row)
  {
    var direct, public := DirectRows(w, g), PublicRows(w, g);
    if DirectlyRelated(rel, g.user) && DirectOutcome(w, g) == ALLOWED {
      row := direct[0];
      assert row in direct;
    } else {
      assert PubliclyAssignable(rel, g.user) && PublicOutcome(w, g) == ALLOWED;
      row := Visible(public)[0];
      assert row in Visible(public) && row in public;
    }
  }

  /** The leaf at a kept position of the relation of a goal. */
  ghost predicate LeafOf(w: World, k: Key, g: Goal, pos: seq<nat>, leaf: Rewrite) {
    var a := (g.obj.typ, g.relation);
    a in w.relations && OnPath(w, k, a) && Kept(w.relations[a].rewrite, pos) &&
      Part(w.relations[a].rewrite, pos) == Options.Some(leaf)
  }

  lemma AssignedUser(w: World, k: Key, edges: EdgeTable, g: Goal, pos: seq<nat>, u: User, row: Row)
    requires Expandable(w) && TableFor(w, k, edges) && LeafOf(w, k, g, pos, This) && Finds(w, edges, g.user, u)
    requires row in w.Rows(g.obj, g.relation) && ReadFor(w.relations[(g.obj.typ, g.relation)], u, row)
    ensures Finds(w, edges, g.user, User(g.obj, g.relation))
  {
    RowIsTyped(w, g.obj, g.relation, row);
    var p := Place((g.obj.typ, g.relation), pos, 0);
    assert Matches(w, SourceOf(u), p);
    FollowsPlace(w, k, edges, g.user, u, p, User(g.obj, g.relation));
  }

  lemma ComputedUser(w: World, k: Key, edges: EdgeTable, g: Goal, pos: seq<nat>, c: string)
    requires Expandable(w) && TableFor(w, k, edges) && LeafOf(w, k, g, pos, Computed(c)) && c != ""
    requires Finds(w, edges, g.user, User(g.obj, c))
    ensures Finds(w, edges, g.user, User(g.obj, g.relation))
  {
    var p := Place((g.obj.typ, g.relation), pos, 0);
    assert Matches(w, SourceOf(User(g.obj, c)), p);
    FollowsPlace(w, k, edges, g.user, User(g.obj, c), p, User(g.obj, g.relation));
  }

  lemma ParentUser(w: World, k: Key, edges: EdgeTable, g: Goal, pos: seq<nat>, leaf: Rewrite, row: Row, i: nat)
    requires Expandable(w) && TableFor(w, k, edges) && LeafOf(w, k, g, pos, leaf) && leaf.TupleToUserset?
    requires row in w.Rows(g.obj, leaf.tupleset) && row.cond == Met && row.user.relation == ""
    requires i < |TuplesetTypes(w, g.obj.typ, leaf.tupleset)|
    requires TuplesetTypes(w, g.obj.typ, leaf.tupleset)[i].typ == row.user.obj.typ
    requires (row.user.obj.typ, leaf.computed) in w.relations
    requires Finds(w, edges, g.user, User(row.user.obj, leaf.computed))
    ensures Finds(w, edges, g.user, User(g.obj, g.relation))
  {
    var p := Place((g.obj.typ, g.relation), pos, i);
    var u := User(row.user.obj, leaf.computed);
    assert leaf.computed != "" && SourceKey(SourceOf(u)) == (row.user.obj.typ, leaf.computed);
    assert Matches(w, SourceOf(u), p);
    FollowsPlace(w, k, edges, g.user, u, p, User(g.obj, g.relation));
  }

  /**
   * Every object on which the relation is derivably true for the user is found by following pruned edges from
   * the user.
   */
  lemma {:induction false} FindsDerived(w: World, k: Key, edges: EdgeTable, n: nat, g: Goal)
    requires Expandable(w) && TableFor(w, k, edges)
    requires OnPath(w, k, (g.obj.typ, g.relation)) && Derives(w, n, g, true)
    ensures Finds(w, edges, g.user, User(g.obj, g.relation))
    decreases n, 0
  {
    StartFound(w, edges, g.user);
    if !SelfDefining(g) {
      var m: nat := n - 1;
      var pos, leaf := DerivedLeaf(w, k, m, g);
      FindsByLeaf(w, k, edges, m, g, pos, leaf);
    }
  }

  lemma {:induction false} FindsByLeaf(w: World, k: Key, edges: EdgeTable, n: nat, g: Goal, pos: seq<nat>,
                                       leaf: Rewrite)
    requires Expandable(w) && TableFor(w, k, edges) && LeafOf(w, k, g, pos, leaf) && Operands(leaf) == []
    requires RefsDefined(w, g.obj.typ, leaf) && Traversable(w, g.obj.typ, leaf) && RewriteDerives(w, n, g, leaf, true)
    ensures Finds(w, edges, g.user, User(g.obj, g.relation))
    decreases n, 2
  {
    match leaf
    case This => FindsAssigned(w, k, edges, n, g, pos);
    case Computed(c) => FindsComputed(w, k, edges, n, g, pos, c);
    case TupleToUserset(_, _) => FindsParent(w, k, edges, n, g, pos, leaf);
    case _ =>
  }

  lemma DerivedLeaf(w: World, k: Key, n: nat, g: Goal) returns (pos: seq<nat>, leaf: Rewrite)
    requires ValidGraph(w) && OnPath(w, k, (g.obj.typ, g.relation)) && Derives(w, n + 1, g, true) && !SelfDefining(g)
    ensures LeafOf(w, k, g, pos, leaf) && Operands(leaf) == [] && RewriteDerives(w, n, g, leaf, true)
    ensures RefsDefined(w, g.obj.typ, leaf) && Traversable(w, g.obj.typ, leaf)
  {
    var rw := w.relations[(g.obj.typ, g.relation)].rewrite;
    pos := KeptLeaf(w, n, g, rw);
    leaf := Part(rw, pos).value;
    PartValid(w, g.obj.typ, rw, pos);
  }

  lemma {:induction false} FindsComputed(w: World, k: Key, edges: EdgeTable, n: nat, g: Goal, pos: seq<nat>, c: string)
    requires Expandable(w) && TableFor(w, k, edges) && LeafOf(w, k, g, pos, Computed(c))
    requires (g.obj.typ, c) in w.relations && Derives(w, n, g.(relation := c), true)
    ensures Finds(w, edges, g.user, User(g.obj, g.relation))
    decreases n, 1
  {
    OnPathNext(w, k, (g.obj.typ, g.relation), pos, (g.obj.typ, c));
    FindsDerived(w, k, edges, n, g.(relation := c));
    assert (g.obj.typ, c).1 != "";
    ComputedUser(w, k, edges, g, pos, c);
  }

  lemma {:induction false} FindsAssigned(w: World, k: Key, edges: EdgeTable, n: nat, g: Goal, pos: seq<nat>)
    requires Expandable(w) && TableFor(w, k, edges) && LeafOf(w, k, g, pos, This) && DirectlyDerives(w, n, g, true)
    ensures Finds(w, edges, g.user, User(g.obj, g.relation))
    decreases n, 1
  {
    var rel := w.relations[(g.obj.typ, g.relation)];
    StartFound(w, edges, g.user);
    if ALLOWED in TupleOutcomes(w, rel, g) {
      var row := LookupRow(w, rel, g);
      AssignedUser(w, k, edges, g, pos, g.user, row);
    } else {
      var row := DerivedUserset(w, n, g);
      var c := (row.user.obj.typ, row.user.relation);
      UsersetDefined(w, (g.obj.typ, g.relation), c);
      OnPathNext(w, k, (g.obj.typ, g.relation), pos, c);
      FindsDerived(w, k, edges, n, Goal(row.user.obj, row.user.relation, g.user));
      AssignedUser(w, k, edges, g, pos, row.user, row);
    }
  }

  lemma UsersetDefined(w: World, a: Key, c: Key)
    requires ValidGraph(w) && a in w.relations && Userset(c.0, c.1) in w.relations[a].restrictions
    ensures c in w.relations
  {
    KeysAdmitted(w.relations[a].restrictions);
  }

  /** The userset tuple a derivation rests on. */
  lemma DerivedUserset(w: World, n: nat, g: Goal) returns (row: Row)
    requires w.fast == imap[] && (g.obj.typ, g.relation) in w.relations && DirectlyDerives(w, n, g, true)
    requires ALLOWED !in TupleOutcomes(w, w.relations[(g.obj.typ, g.relation)], g)
    ensures row in w.Rows(g.obj, g.relation) && row.cond == Met && row.user.relation != ""
    ensures Userset(row.user.obj.typ, row.user.relation) in w.relations[(g.obj.typ, g.relation)].restrictions
    ensures Derives(w, n, Goal(row.user.obj, row.user.relation, g.user), true)
  {
    var rel := w.relations[(g.obj.typ, g.relation)];
    var visible := Visible(UsersetRows(w, rel, g));
    var targets := UsersetTargets(visible, g.user);
    assert TargetsDerive(w, n, targets, EndsInError(UsersetRows(w, rel, g)), true);
    var i :| 0 <= i < |targets| && Derives(w, n, targets[i], true);
    row := visible[i];
    assert row in visible && row in UsersetRows(w, rel, g);
  }

  lemma DerivedParent(w: World, n: nat, g: Goal, leaf: Rewrite) returns (row: Row)
    requires w.fast == imap[] && (g.obj.typ, g.relation) in w.relations && leaf.TupleToUserset?
    requires RewriteDerives(w, n, g, leaf, true)
    ensures row in w.Rows(g.obj, leaf.tupleset) && row.cond == Met && !SkipsParent(w, row.user.obj.typ, leaf.computed)
    ensures Derives(w, n, Goal(row.user.obj, leaf.computed, g.user), true)
  {
    var visible := Visible(w.Rows(g.obj, leaf.tupleset));
    var targets := ParentTargets(w, visible, leaf.computed, g.user);
    assert TargetsDerive(w, n, targets, EndsInError(w.Rows(g.obj, leaf.tupleset)), true);
    var i :| 0 <= i < |targets| && Derives(w, n, targets[i], true);
    assert targets[i] in targets;
    var j :| 0 <= j < |visible| && targets[i] == Goal(visible[j].user.obj, leaf.computed, g.user) &&
      !SkipsParent(w, visible[j].user.obj.typ, leaf.computed);
    row := visible[j];
    assert row in visible;
  }

  /** A valid tuple of a tupleset names an object of a type the tupleset admits. */
  lemma ParentTyped(w: World, typ: string, leaf: Rewrite, o: Object, row: Row) returns (i: nat)
    requires Expandable(w) && leaf.TupleToUserset? && RefsDefined(w, typ, leaf) && Traversable(w, typ, leaf)
    requires o.typ == typ && row in w.Rows(o, leaf.tupleset) && !SkipsParent(w, row.user.obj.typ, leaf.computed)
    ensures row.user.relation == "" && i < |TuplesetTypes(w, typ, leaf.tupleset)|
    ensures TuplesetTypes(w, typ, leaf.tupleset)[i].typ == row.user.obj.typ
    ensures (row.user.obj.typ, leaf.computed) in w.relations
  {
    RowIsTyped(w, o, leaf.tupleset, row);
    var rs := TuplesetTypes(w, typ, leaf.tupleset);
    KeysAdmitted(rs);
    assert row.user.relation != "" ==> (row.user.obj.typ, row.user.relation) in UsersetKeys(rs);
    i :| i < |rs| && rs[i].typ == row.user.obj.typ;
    assert rs[i] in rs;
  }

  lemma {:induction false} FindsParent(w: World, k: Key, edges: EdgeTable, n: nat, g: Goal, pos: seq<nat>,
                                       leaf: Rewrite)
    requires Expandable(w) && TableFor(w, k, edges) && LeafOf(w, k, g, pos, leaf) && leaf.TupleToUserset?
    requires RefsDefined(w, g.obj.typ, leaf) && Traversable(w, g.obj.typ, leaf) && RewriteDerives(w, n, g, leaf, true)
    ensures Finds(w, edges, g.user, User(g.obj, g.relation))
    decreases n, 1
  {
    var row := DerivedParent(w, n, g, leaf);
    var i := ParentTyped(w, g.obj.typ, leaf, g.obj, row);
    assert TuplesetTypes(w, g.obj.typ, leaf.tupleset)[i] in TuplesetTypes(w, g.obj.typ, leaf.tupleset);
    OnPathNext(w, k, (g.obj.typ, g.relation), pos, (row.user.obj.typ, leaf.computed));
    FindsDerived(w, k, edges, n, Goal(row.user.obj, leaf.computed, g.user));
    ParentUser(w, k, edges, g, pos, leaf, row, i);
  }

  /**
   * For a plain user this starts at a direct edge for the user's type, into a relation on a pruned path that
   * holds a tuple for the user or its wildcard.
   */
  lemma StartsDirectly(w: World, k: Key, edges: EdgeTable, n: nat, g: Goal) returns (e: Edge, v: User)
    requires Expandable(w) && TableFor(w, k, edges) && g.user.relation == ""
    requires OnPath(w, k, (g.obj.typ, g.relation)) && (g.obj.typ, g.relation) in w.relations && Derives(w, n, g, true)
    ensures e in edges(SourceOf(g.user)) && e.kind == DirectEdge && OnPath(w, k, e.target)
    ensures Moves(w, e, g.user, v)
  {
    FindsDerived(w, k, edges, n, g);
    assert (g.obj.typ, g.relation).1 != "";
    var us, es :| IsExpansion(w, edges, g.user, us, es) && us[|es|] == User(g.obj, g.relation);
    e, v := es[0], us[1];
    assert EdgeStep(w, edges, us[0], es[0], us[0 + 1]);
    assert PrunedFor(w, k, SourceOf(g.user), edges(SourceOf(g.user)));
    assert Reported(w, k, SourceOf(g.user), e);
    var p, f' :| Matches(w, SourceOf(g.user), p) && Path(w, k, p.relation, f') &&
      e == EdgeAt(w, SourceOf(g.user), p).(flagged := f' || EdgeAt(w, SourceOf(g.user), p).flagged);
    LeavesPlain(w, SourceOf(g.user), p);
  }

  /** Edges of other kinds leave from usersets. */
  lemma LeavesPlain(w: World, source: Restriction, p: Place)
    requires ValidGraph(w) && NamedRelations(w) && !source.Userset? && Matches(w, source, p)
    ensures EdgeAt(w, source, p).kind == DirectEdge && EdgeAt(w, source, p).target == p.relation
  {
    ComputedNamed(w, p.relation, p.pos);
  }

  /** A computed relation has a name. */
  lemma ComputedNamed(w: World, k: Key, pos: seq<nat>)
    requires ValidGraph(w) && NamedRelations(w) && k in w.relations && Part(w.relations[k].rewrite, pos).Some?
    ensures var leaf := Part(w.relations[k].rewrite, pos).value; leaf.Computed? ==> leaf.relation != ""
  {
    PartValid(w, k.0, w.relations[k].rewrite, pos);
    var leaf := Part(w.relations[k].rewrite, pos).value;
    if leaf.Computed? { assert (k.0, leaf.relation) in w.relations; }
  }

  /** Every object the check derives for the target relation is found. */
  lemma EveryRelatedObjectFound(w: World, k: Key, edges: EdgeTable, n: nat, o: Object, user: User)
    requires Expandable(w) && TableFor(w, k, edges) && o.typ == k.0 && Derives(w, n, Goal(o, k.1, user), true)
    ensures Finds(w, edges, user, User(o, k.1))
  {
    PathSelf(w, k);
    assert (o.typ, k.1) == k;
    FindsDerived(w, k, edges, n, Goal(o, k.1, user));
  }

  // ------------------------------------------------------------ unflagged edges need no further check

  /** A leaf outside all intersections and exclusions makes the rewrite derivably true. */
  lemma {:induction false} UnionClimb(w: World, n: nat, g: Goal, rw: Rewrite, pos: seq<nat>)
    requires (g.obj.typ, g.relation) in w.relations && Part(rw, pos).Some? && !Inside(rw, pos)
    requires RewriteDerives(w, n, g, Part(rw, pos).value, true)
    ensures RewriteDerives(w, n, g, rw, true)
    decreases |pos|
  {
    if pos != [] { UnionClimb(w, n, g, Operands(rw)[pos[0]], pos[1..]); }
  }

  /** The tuples are valid and there is one per user. */
  ghost predicate OneTupleEach(w: World) {
    forall o, r, i, j :: 0 <= i < j < |w.Rows(o, r)| ==> w.Rows(o, r)[i].user != w.Rows(o, r)[j].user
  }

  /** A met tuple for the user or its wildcard is found by a lookup. */
  lemma LookupAllows(w: World, g: Goal, row: Row)
    requires OneTupleEach(w) && TypedRows(w) && (g.obj.typ, g.relation) in w.relations
    requires row in w.Rows(g.obj, g.relation) && ReadFor(w.relations[(g.obj.typ, g.relation)], g.user, row)
    ensures ALLOWED in TupleOutcomes(w, w.relations[(g.obj.typ, g.relation)], g)
  {
    var rel, rows := w.relations[(g.obj.typ, g.relation)], w.Rows(g.obj, g.relation);
    RowIsTyped(w, g.obj, g.relation, row);
    if row.user == User(Object(g.user.obj.typ, "*"), "") {
      assert row in PublicRows(w, g) && row in Visible(PublicRows(w, g));
      assert PublicOutcome(w, g) == ALLOWED && PubliclyAssignable(rel, g.user);
    } else {
      var mine := DirectRows(w, g);
      assert row in mine && mine[0] in mine;
      var i :| 0 <= i < |rows| && rows[i] == row;
      var j :| 0 <= j < |rows| && rows[j] == mine[0];
      assert i == j;
      assert DirectOutcome(w, g) == ALLOWED && DirectlyRelated(rel, g.user);
    }
  }

  /** The path to every userset reached is known to exist. */
  ghost predicate PathsKnown(w: World, edges: EdgeTable, user: User) {
    forall v :: Finds(w, edges, user, v) ==> PathKnown(w, user, v)
  }

  predicate PathKnown(w: World, user: User, v: User) {
    var key := PathOf(Goal(v.obj, v.relation, user));
    key in w.paths && w.paths[key]
  }

  /** What following an unflagged edge from a derivable userset, or from the user, shows. */
  lemma UnflaggedStep(w: World, k: Key, n: nat, user: User, u: User, e: Edge, v: User)
    requires Expandable(w) && OneTupleEach(w) && Reported(w, k, SourceOf(u), e) && !e.flagged && Moves(w, e, u, v)
    requires n > 0 && Derives(w, n, Goal(u.obj, u.relation, user), true) && (u == user || u.relation != "")
    ensures RewriteDerives(w, n, Goal(v.obj, v.relation, user), w.relations[(v.obj.typ, v.relation)].rewrite, true)
  {
    var p, f :| Matches(w, SourceOf(u), p) && Path(w, k, p.relation, f) &&
      e == EdgeAt(w, SourceOf(u), p).(flagged := f || EdgeAt(w, SourceOf(u), p).flagged);
    LeafStep(w, n, user, u, p, v);
    UnionClimb(w, n, Goal(v.obj, v.relation, user), w.relations[p.relation].rewrite, p.pos);
  }

  lemma LeafStep(w: World, n: nat, user: User, u: User, p: Place, v: User)
    requires Expandable(w) && OneTupleEach(w) && Matches(w, SourceOf(u), p)
    requires Moves(w, EdgeAt(w, SourceOf(u), p), u, v)
    requires Derives(w, n, Goal(u.obj, u.relation, user), true) && (u == user || u.relation != "")
    ensures var leaf := Part(w.relations[p.relation].rewrite, p.pos).value;
      RewriteDerives(w, n, Goal(v.obj, v.relation, user), leaf, true)
  {
    var leaf, e := Part(w.relations[p.relation].rewrite, p.pos).value, EdgeAt(w, SourceOf(u), p);
    ComputedNamed(w, p.relation, p.pos);
    match leaf
    case This => AssignedStep(w, n, user, u, e, v);
    case Computed(c) => assert u.relation == c && Goal(v.obj, v.relation, user).(relation := c) == Goal(u.obj, c, user);
    case TupleToUserset(_, _) => ParentStep(w, n, user, u, e, v, leaf);
  }

  lemma AssignedStep(w: World, n: nat, user: User, u: User, e: Edge, v: User)
    requires Expandable(w) && OneTupleEach(w) && e.kind == DirectEdge && Moves(w, e, u, v)
    requires Derives(w, n, Goal(u.obj, u.relation, user), true) && (u == user || u.relation != "")
    ensures DirectlyDerives(w, n, Goal(v.obj, v.relation, user), true)
  {
    var g, rel := Goal(v.obj, v.relation, user), w.relations[e.target];
    var row :| row in w.Rows(v.obj, v.relation) && ReadFor(rel, u, row);
    if u == user {
      LookupAllows(w, g, row);
    } else {
      RowIsTyped(w, v.obj, v.relation, row);
      UsersetStep(w, n, g, row);
    }
  }

  lemma UsersetStep(w: World, n: nat, g: Goal, row: Row)
    requires w.fast == imap[] && (g.obj.typ, g.relation) in w.relations
    requires row in w.Rows(g.obj, g.relation) && row.cond == Met && row.user.relation != ""
    requires RowTyped(w.relations[(g.obj.typ, g.relation)], row)
    requires Derives(w, n, Goal(row.user.obj, row.user.relation, g.user), true)
    ensures DirectlyDerives(w, n, g, true)
  {
    var rel := w.relations[(g.obj.typ, g.relation)];
    var rows := UsersetRows(w, rel, g);
    var targets := UsersetTargets(Visible(rows), g.user);
    assert row in rows && row in Visible(rows);
    var i :| 0 <= i < |Visible(rows)| && Visible(rows)[i] == row;
    assert targets[i] == Goal(row.user.obj, row.user.relation, g.user);
    assert TargetsDerive(w, n, targets, EndsInError(rows), true);
  }

  lemma ParentStep(w: World, n: nat, user: User, u: User, e: Edge, v: User, leaf: Rewrite)
    requires w.fast == imap[] && leaf.TupleToUserset? && e.kind == TupleToUsersetEdge && e.tupleset == leaf.tupleset
    requires Moves(w, e, u, v) && u.relation == leaf.computed && (u.obj.typ, leaf.computed) in w.relations
    requires Derives(w, n, Goal(u.obj, u.relation, user), true)
    ensures RewriteDerives(w, n, Goal(v.obj, v.relation, user), leaf, true)
  {
    var g := Goal(v.obj, v.relation, user);
    var rows := w.Rows(v.obj, leaf.tupleset);
    var row :| row in rows && row.cond == Met && row.user == User(u.obj, "");
    var targets := ParentTargets(w, Visible(rows), leaf.computed, user);
    assert row in Visible(rows);
    var j :| 0 <= j < |Visible(rows)| && Visible(rows)[j] == row;
    assert Goal(u.obj, leaf.computed, user) in targets;
    var i :| 0 <= i < |targets| && targets[i] == Goal(u.obj, leaf.computed, user);
    assert TargetsDerive(w, n, targets, EndsInError(rows), true);
  }

  lemma UnflaggedGoal(w: World, k: Key, n: nat, user: User, u: User, e: Edge, v: User)
    requires Expandable(w) && OneTupleEach(w) && Reported(w, k, SourceOf(u), e) && !e.flagged && Moves(w, e, u, v)
    requires n > 0 && Derives(w, n, Goal(u.obj, u.relation, user), true) && (u == user || u.relation != "")
    requires PathKnown(w, user, v)
    ensures Derives(w, n + 1, Goal(v.obj, v.relation, user), true) && v.relation != ""
  {
    UnflaggedStep(w, k, n, user, u, e, v);
    assert (v.obj.typ, v.relation).1 != "";
  }

  lemma PassedKnown(w: World, edges: EdgeTable, user: User, us: seq<User>, es: seq<Edge>, i: nat)
    requires PathsKnown(w, edges, user) && IsExpansion(w, edges, user, us, es) && i < |us|
    ensures PathKnown(w, user, us[i])
  {
    assert IsExpansion(w, edges, user, us[..i + 1], es[..i]);
    assert Finds(w, edges, user, us[i]);
  }

  lemma PassedStep(w: World, k: Key, edges: EdgeTable, user: User, us: seq<User>, es: seq<Edge>, i: nat)
    requires TableFor(w, k, edges) && IsExpansion(w, edges, user, us, es) && i < |es|
    ensures Moves(w, es[i], us[i], us[i + 1]) && Reported(w, k, SourceOf(us[i]), es[i])
  {
    assert EdgeStep(w, edges, us[i], es[i], us[i + 1]);
    assert PrunedFor(w, k, SourceOf(us[i]), edges(SourceOf(us[i])));
  }

  /** Whatever is reached by unflagged edges is derivably related to the user. */
  lemma {:induction false} UnflaggedIsDerived(w: World, k: Key, edges: EdgeTable, user: User, us: seq<User>,
                                              es: seq<Edge>, i: nat)
    requires Expandable(w) && OneTupleEach(w) && TableFor(w, k, edges) && PathsKnown(w, edges, user)
    requires IsExpansion(w, edges, user, us, es) && i < |us| && forall j :: 0 <= j < i ==> !es[j].flagged
    ensures Derives(w, i + 1, Goal(us[i].obj, us[i].relation, user), true)
    ensures i > 0 ==> us[i].relation != ""
    decreases i
  {
    if i > 0 {
      UnflaggedIsDerived(w, k, edges, user, us, es, i - 1);
      PassedStep(w, k, edges, user, us, es, i - 1);
      PassedKnown(w, edges, user, us, es, i);
      UnflaggedGoal(w, k, i, user, us[i - 1], es[i - 1], us[i]);
    }
  }
}
