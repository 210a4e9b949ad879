/**
 * The weight-two fast path for usersets compares objects and forgets the relation of the userset, so it
 * agrees with the slow path on all tuples exactly when the relations admitted of a type are
 * interchangeable.
 */
module FastUserset {
  import opened Options
  import opened TupleText
  import opened IteratorStreams
  import opened Model
  import opened Soundness
  import opened Fixpoint
  import opened FastPath
  import opened FastMeaning
  import opened FastFixpoint
  import opened LeafLogic
  import opened TwoSided
  import opened FastTwoSided

  // ------------------------------------------------------------ usersets and their objects

  /** The usersets the relation admits, as type and relation. */
  function Admits(rel: Relation): set<(string, string)> {
    set r | r in rel.restrictions && r.Userset? :: (r.typ, r.relation)
  }

  /** The user is a member of the userset, as streamed for its type and relation. */
  ghost predicate UsersetMember(scopes: map<(string, string), Scope>, u: User) {
    var k := (u.obj.typ, u.relation);
    k in scopes && (scopes[k].typ, u.relation) in scopes[k].w.relations &&
      InScope(scopes[k], u.relation, RewriteOf(scopes[k], u.relation)) &&
    Member(scopes[k], u.relation, RewriteOf(scopes[k], u.relation), ObjectString(u.obj))
  }

  /** The user is in one of the assigned usersets. */
  ghost predicate SomeUsersetMember(rows: seq<Row>, scopes: map<(string, string), Scope>) {
    exists i :: 0 <= i < |rows| && UsersetMember(scopes, rows[i].user)
  }

  /** The user has some admitted relation with the object of an assigned userset. */
  ghost predicate SomeObjectMember(rel: Relation, rows: seq<Row>, scopes: map<(string, string), Scope>) {
    exists i, r :: 0 <= i < |rows| && (rows[i].user.obj.typ, r) in Admits(rel) &&
      UsersetMember(scopes, User(rows[i].user.obj, r))
  }

  // ------------------------------------------------------------ when forgetting the relation is harmless

  /** The admitted relations can be evaluated for the user. */
  ghost predicate ScopesReady(w: World, user: User, rel: Relation, scopes: map<(string, string), Scope>) {
    user.relation == "" && forall k :: k in Admits(rel) ==>
      k.1 != "" && k in scopes && ScopeReady(w, user, k, scopes[k])
  }

  ghost predicate ScopeReady(w: World, user: User, k: (string, string), sc: Scope) {
    sc.w == w && sc.user == user && sc.typ == k.0 && k in w.relations && InScope(sc, k.1, w.relations[k].rewrite)
  }

  /**
   * Whatever tuples hold, an object of a type has one of the admitted relations of the type exactly if it
   * has the others.
   */
  ghost predicate Interchangeable(w: World, user: User, rel: Relation, scopes: map<(string, string), Scope>)
    requires ScopesReady(w, user, rel, scopes)
  {
    forall k, l, holds :: k in Admits(rel) && l in Admits(rel) && k.0 == l.0 && Possible(scopes[k], holds) ==>
      (Eval(scopes[k], k.1, w.relations[k].rewrite, holds) <==> Eval(scopes[l], l.1, w.relations[l].rewrite, holds))
  }

  ghost function OverAll(scopes: map<(string, string), Scope>, rows: Tuples): map<(string, string), Scope> {
    map k | k in scopes :: Over(scopes[k], rows)
  }

  /** The userset tuples on an object, if `rows` are the tuples. */
  function UsersetsOn(w: World, user: User, relation: string, rows: Tuples, o: Object): seq<Row>
    requires (o.typ, relation) in w.relations
  {
    Visible(UsersetRows(w.(rows := rows), w.relations[(o.typ, relation)], Goal(o, relation, user)))
  }

  /** The tuples on the object and on all objects of the admitted types are valid. */
  ghost predicate ValidTuples(w: World, relation: string, rows: Tuples, o: Object)
    requires (o.typ, relation) in w.relations
  {
    CleanRows(w.(rows := rows), o, relation) && forall k :: k in Admits(w.relations[(o.typ, relation)]) ==>
      CleanTuples(w.(rows := rows), k.0)
  }

  /** On these tuples, comparing objects finds what comparing usersets finds. */
  ghost predicate SameAnswer(w: World, user: User, relation: string, scopes: map<(string, string), Scope>,
                             rows: Tuples, o: Object)
    requires (o.typ, relation) in w.relations
  {
    var visible := UsersetsOn(w, user, relation, rows, o);
    SomeObjectMember(w.relations[(o.typ, relation)], visible, OverAll(scopes, rows)) <==>
      SomeUsersetMember(visible, OverAll(scopes, rows))
  }

  /**
   * Comparing objects gives the answer of comparing usersets for all valid tuples if and only if the
   * admitted relations of each type are interchangeable.
   */
  lemma ObjectsSuffice(w: World, user: User, typ: string, relation: string, scopes: map<(string, string), Scope>)
    requires (typ, relation) in w.relations && ScopesReady(w, user, w.relations[(typ, relation)], scopes)
    ensures (forall rows, o: Object :: o.typ == typ && ValidTuples(w, relation, rows, o) ==>
      SameAnswer(w, user, relation, scopes, rows, o))
      <==> Interchangeable(w, user, w.relations[(typ, relation)], scopes)
  {
    var rel := w.relations[(typ, relation)];
    if Interchangeable(w, user, rel, scopes) {
      forall rows, o: Object | o.typ == typ && ValidTuples(w, relation, rows, o)
        ensures SameAnswer(w, user, relation, scopes, rows, o)
      {
        InterchangeableAgrees(w, user, relation, scopes, rows, o);
      }
    } else {
      var k, l, holds :| k in Admits(rel) && l in Admits(rel) && k.0 == l.0 && Possible(scopes[k], holds) &&
        !(Eval(scopes[k], k.1, w.relations[k].rewrite, holds) <==> Eval(scopes[l], l.1, w.relations[l].rewrite, holds));
      if Eval(scopes[l], l.1, w.relations[l].rewrite, holds) {
        var rows, o := Misleads(w, user, typ, relation, scopes, k, l, holds);
      } else {
        var rows, o := Misleads(w, user, typ, relation, scopes, l, k, holds);
      }
    }
  }

  /** Membership in a userset over given tuples is the truth function of the relations that hold on its object. */
  lemma KeyEval(w: World, user: User, scopes: map<(string, string), Scope>, rows: Tuples, k: (string, string),
                o: Object)
    requires k in scopes && ScopeReady(w, user, k, scopes[k]) && o.typ == k.0
    ensures UsersetMember(OverAll(scopes, rows), User(o, k.1)) <==>
      Eval(scopes[k], k.1, w.relations[k].rewrite, LeafSet(Over(scopes[k], rows), o))
  {
    var sc := scopes[k];
    InScopeOver(sc, rows, k.1, w.relations[k].rewrite);
    MemberIsEval(sc, rows, k.1, w.relations[k].rewrite, o);
    assert OverAll(scopes, rows)[k] == Over(sc, rows) && RewriteOf(Over(sc, rows), k.1) == w.relations[k].rewrite;
  }

  lemma InterchangeableAgrees(w: World, user: User, relation: string, scopes: map<(string, string), Scope>,
                              rows: Tuples, o: Object)
    requires (o.typ, relation) in w.relations && ScopesReady(w, user, w.relations[(o.typ, relation)], scopes)
    requires Interchangeable(w, user, w.relations[(o.typ, relation)], scopes) && ValidTuples(w, relation, rows, o)
    ensures SameAnswer(w, user, relation, scopes, rows, o)
  {
    var rel, visible := w.relations[(o.typ, relation)], UsersetsOn(w, user, relation, rows, o);
    forall i | 0 <= i < |visible| ensures (visible[i].user.obj.typ, visible[i].user.relation) in Admits(rel) {
      assert visible[i] in visible;
      assert Userset(visible[i].user.obj.typ, visible[i].user.relation) in rel.restrictions;
    }
    forall i, r | 0 <= i < |visible| && (visible[i].user.obj.typ, r) in Admits(rel)
      ensures UsersetMember(OverAll(scopes, rows), User(visible[i].user.obj, r)) <==>
        UsersetMember(OverAll(scopes, rows), visible[i].user)
    {
      SameUserset(w, user, relation, scopes, rows, o, visible[i].user, r);
    }
    if SomeUsersetMember(visible, OverAll(scopes, rows)) {
      var i :| 0 <= i < |visible| && UsersetMember(OverAll(scopes, rows), visible[i].user);
      assert visible[i].user == User(visible[i].user.obj, visible[i].user.relation);
    }
  }

  lemma SameUserset(w: World, user: User, relation: string, scopes: map<(string, string), Scope>, rows: Tuples,
                    o: Object, u: User, r: string)
    requires (o.typ, relation) in w.relations && ScopesReady(w, user, w.relations[(o.typ, relation)], scopes)
    requires Interchangeable(w, user, w.relations[(o.typ, relation)], scopes) && ValidTuples(w, relation, rows, o)
    requires (u.obj.typ, u.relation) in Admits(w.relations[(o.typ, relation)])
    requires (u.obj.typ, r) in Admits(w.relations[(o.typ, relation)])
    ensures UsersetMember(OverAll(scopes, rows), User(u.obj, r)) <==> UsersetMember(OverAll(scopes, rows), u)
  {
    var k, l := (u.obj.typ, r), (u.obj.typ, u.relation);
    var holds := LeafSet(Over(scopes[k], rows), u.obj);
    KeyEval(w, user, scopes, rows, k, u.obj);
    KeyEval(w, user, scopes, rows, l, u.obj);
    LeafSetPossible(Over(scopes[k], rows), u.obj);
    assert holds == LeafSet(Over(scopes[l], rows), u.obj);
    assert Possible(scopes[k], holds);
    assert u == User(u.obj, u.relation);
  }

  /** The tuples that assign the userset `k` of an object on which a choice of relations holds. */
  ghost function Misleading(sc: Scope, relation: string, k: (string, string), holds: set<string>, p: Object,
                            o: Object): Tuples
    requires Possible(sc, holds)
  {
    Realising(sc, p, holds)[(o, relation) := [Row(User(p, k.1), Met)]]
  }

  lemma MisleadingValid(w: World, user: User, relation: string, sc: Scope, k: (string, string), holds: set<string>,
                        p: Object, o: Object)
    requires (o.typ, relation) in w.relations && k in Admits(w.relations[(o.typ, relation)]) && k.1 != ""
    requires user.relation == ""
    requires ScopeReady(w, user, k, sc) && Possible(sc, holds) && p.typ == k.0 && o != p
    ensures ValidTuples(w, relation, Misleading(sc, relation, k, holds, p, o), o)
  {
    var w' := w.(rows := Misleading(sc, relation, k, holds, p, o));
    forall q, r ensures CleanRows(w', q, r) {
      if (q, r) != (o, relation) && q == p && r in holds { WitnessMatches(sc, r); }
    }
  }

  /** If the choice gives the object the relation `l` but not `k`, assigning the userset `k` misleads the comparison. */
  lemma Misleads(w: World, user: User, typ: string, relation: string, scopes: map<(string, string), Scope>,
                 k: (string, string), l: (string, string), holds: set<string>)
    returns (rows: Tuples, o: Object)
    requires (typ, relation) in w.relations && ScopesReady(w, user, w.relations[(typ, relation)], scopes)
    requires k in Admits(w.relations[(typ, relation)]) && l in Admits(w.relations[(typ, relation)]) && k.0 == l.0
    requires Possible(scopes[k], holds)
    requires Eval(scopes[l], l.1, w.relations[l].rewrite, holds) && !Eval(scopes[k], k.1, w.relations[k].rewrite, holds)
    ensures o.typ == typ && ValidTuples(w, relation, rows, o) && !SameAnswer(w, user, relation, scopes, rows, o)
  {
    var p := Object(k.0, "1");
    o := Object(typ, "2");
    rows := Misleading(scopes[k], relation, k, holds, p, o);
    MisleadingValid(w, user, relation, scopes[k], k, holds, p, o);
    Realised(scopes[k], rows, p, holds);
    Realised(scopes[l], rows, p, holds);
    KeyEval(w, user, scopes, rows, k, p);
    KeyEval(w, user, scopes, rows, l, p);
    OneUserset(w, user, relation, rows, o, Row(User(p, k.1), Met));
    assert l == (p.typ, l.1);
    OtherRelationMatches(w, user, relation, scopes, rows, o, p, k.1, l.1);
  }

  lemma OneUserset(w: World, user: User, relation: string, rows: Tuples, o: Object, row: Row)
    requires (o.typ, relation) in w.relations && (o, relation) in rows && rows[(o, relation)] == [row]
    requires row.cond.Met? && row.user.relation != ""
    requires Userset(row.user.obj.typ, row.user.relation) in w.relations[(o.typ, relation)].restrictions
    ensures Only(UsersetsOn(w, user, relation, rows, o), row)
  {
    var visible := UsersetsOn(w, user, relation, rows, o);
    assert forall x :: x in [row] <==> x == row;
    assert row in visible;
    forall i | 0 <= i < |visible| ensures visible[i] == row { assert visible[i] in visible; }
  }

  predicate Only(rows: seq<Row>, row: Row) {
    rows != [] && forall i :: 0 <= i < |rows| ==> rows[i] == row
  }

  /** One tuple assigns the userset `p#k`, and the user is in `p#l` only: the objects match, the usersets do not. */
  lemma OtherRelationMatches(w: World, user: User, relation: string, scopes: map<(string, string), Scope>,
                             rows: Tuples, o: Object, p: Object, k: string, l: string)
    requires (o.typ, relation) in w.relations && Only(UsersetsOn(w, user, relation, rows, o), Row(User(p, k), Met))
    requires (p.typ, l) in Admits(w.relations[(o.typ, relation)])
    requires UsersetMember(OverAll(scopes, rows), User(p, l)) && !UsersetMember(OverAll(scopes, rows), User(p, k))
    ensures !SameAnswer(w, user, relation, scopes, rows, o)
  {
    var visible := UsersetsOn(w, user, relation, rows, o);
    assert visible[0].user.obj == p;
  }

  // ------------------------------------------------------------ the slow path

  ghost predicate UsersetsOk(w: World, g: Goal, sides: map<(string, string), Side>) {
    && (g.obj.typ, g.relation) in w.relations && CleanRows(w, g.obj, g.relation) && g.user.relation == ""
    && forall k :: k in Admits(w.relations[(g.obj.typ, g.relation)]) ==>
         ':' !in k.0 && k in sides && SideOk(sides[k], w, g.user, k.0, k.1)
  }

  /** The leaf reads for every userset type list all directly related objects. */
  ghost predicate UsersetsComplete(sides: map<(string, string), Side>) {
    forall k :: k in sides ==> ListsAll(sides[k].scope)
  }

  function ScopesOf(sides: map<(string, string), Side>): map<(string, string), Scope> {
    map k | k in sides :: sides[k].scope
  }

  lemma ScopesOfReady(w: World, g: Goal, sides: map<(string, string), Side>)
    requires UsersetsOk(w, g, sides)
    ensures ScopesReady(w, g.user, w.relations[(g.obj.typ, g.relation)], ScopesOf(sides))
  {
    forall k | k in Admits(w.relations[(g.obj.typ, g.relation)])
      ensures k.1 != "" && ScopeReady(w, g.user, k, sides[k].scope)
    {
      assert SideOk(sides[k], w, g.user, k.0, k.1);
      assert FastReady(sides[k].scope, k.1);
      assert k == (k.0, k.1);
    }
  }

  /** A userset row is admitted and its side is in order. */
  lemma UsersetRowOk(w: World, g: Goal, sides: map<(string, string), Side>, row: Row)
    requires UsersetsOk(w, g, sides) && row in UsersetRows(w, w.relations[(g.obj.typ, g.relation)], g)
    ensures (row.user.obj.typ, row.user.relation) in Admits(w.relations[(g.obj.typ, g.relation)])
    ensures (row.user.obj.typ, row.user.relation) in sides && ':' !in row.user.obj.typ
    ensures SideOk(sides[(row.user.obj.typ, row.user.relation)], w, g.user, row.user.obj.typ, row.user.relation)
  {
    var rel := w.relations[(g.obj.typ, g.relation)];
    var k := (row.user.obj.typ, row.user.relation);
    assert Userset(k.0, k.1) in rel.restrictions;
    assert k in Admits(rel);
  }

  /** Dispatching a check per userset tuple derives nothing but membership in one of the usersets. */
  lemma UsersetsDerive(w: World, g: Goal, sides: map<(string, string), Side>, n: nat, b: bool)
    requires UsersetsOk(w, g, sides) && UsersetsComplete(sides)
    requires var rows := UsersetRows(w, w.relations[(g.obj.typ, g.relation)], g);
      TargetsDerive(w, n, UsersetTargets(Visible(rows), g.user), EndsInError(rows), b)
    ensures b == SomeUsersetMember(Visible(UsersetRows(w, w.relations[(g.obj.typ, g.relation)], g)), ScopesOf(sides))
  {
    var rows := UsersetRows(w, w.relations[(g.obj.typ, g.relation)], g);
    var visible := Visible(rows);
    var targets := UsersetTargets(visible, g.user);
    forall i | 0 <= i < |targets| && Derives(w, n, targets[i], b)
      ensures b == UsersetMember(ScopesOf(sides), visible[i].user)
    {
      assert visible[i] in visible && visible[i] in rows;
      UsersetDerived(w, g, sides, visible[i], n, b);
    }
  }

  lemma UsersetDerived(w: World, g: Goal, sides: map<(string, string), Side>, row: Row, n: nat, b: bool)
    requires UsersetsOk(w, g, sides) && UsersetsComplete(sides)
    requires row in UsersetRows(w, w.relations[(g.obj.typ, g.relation)], g)
    requires Derives(w, n, Goal(row.user.obj, row.user.relation, g.user), b)
    ensures b == UsersetMember(ScopesOf(sides), row.user)
  {
    UsersetRowOk(w, g, sides, row);
    GoalDerived(sides[(row.user.obj.typ, row.user.relation)].scope, row.user.relation, row.user.obj, n, b);
  }

  /** The slow path answers nothing but membership in one of the usersets. */
  lemma UsersetsAnswer(w: World, g: Goal, sides: map<(string, string), Side>)
    requires UsersetsOk(w, g, sides) && UsersetsComplete(sides)
    ensures var rows := UsersetRows(w, w.relations[(g.obj.typ, g.relation)], g);
      SlowAnswers(w, UsersetTargets(Visible(rows), g.user), EndsInError(rows),
        SomeUsersetMember(Visible(rows), ScopesOf(sides)))
  {
    var rows := UsersetRows(w, w.relations[(g.obj.typ, g.relation)], g);
    var targets, member := UsersetTargets(Visible(rows), g.user), SomeUsersetMember(Visible(rows), ScopesOf(sides));
    forall n: nat, b | TargetsDerive(w, n, targets, EndsInError(rows), b)
      ensures b == member
    {
      UsersetsDerive(w, g, sides, n, b);
    }
    DerivedIsAnswered(w, targets, EndsInError(rows), member);
  }

  ghost predicate DeepForAll(sides: map<(string, string), Side>, n: nat) {
    forall k :: k in sides && k.1 in sides[k].scope.rank ==> n > sides[k].scope.rank[k.1] + 1
  }

  /** The conditions on the tuples involved evaluate. */
  ghost predicate UsersetsEvaluate(w: World, g: Goal, sides: map<(string, string), Side>) {
    Evaluable(w, g.obj, g.relation) && forall k :: k in sides ==> EvaluableTuples(w, k.0)
  }

  /** If conditions evaluate, dispatching a check per userset tuple settles to membership in one of the usersets. */
  lemma UsersetsSettle(w: World, g: Goal, sides: map<(string, string), Side>, n: nat)
    requires UsersetsOk(w, g, sides) && UsersetsComplete(sides) && DeepForAll(sides, n) && UsersetsEvaluate(w, g, sides)
    ensures var rows := UsersetRows(w, w.relations[(g.obj.typ, g.relation)], g);
      TargetsDerive(w, n, UsersetTargets(Visible(rows), g.user), EndsInError(rows),
        SomeUsersetMember(Visible(rows), ScopesOf(sides)))
  {
    var rows := UsersetRows(w, w.relations[(g.obj.typ, g.relation)], g);
    var visible := Visible(rows);
    var targets := UsersetTargets(visible, g.user);
    NotBroken(w.Rows(g.obj, g.relation), rows);
    forall i | 0 <= i < |targets| ensures Derives(w, n, targets[i], UsersetMember(ScopesOf(sides), visible[i].user)) {
      var u := visible[i].user;
      assert visible[i] in rows;
      UsersetRowOk(w, g, sides, visible[i]);
      assert (u.obj.typ, u.relation) in sides;
      GoalAgrees(sides[(u.obj.typ, u.relation)].scope, u.relation, u.obj, n);
    }
  }

  /** Without exclusion, some userset is in the least fixpoint exactly if the user is in one of them as streamed. */
  lemma UsersetsInLfp(w: World, g: Goal, sides: map<(string, string), Side>)
    requires ExclusionFree(w) && UsersetsOk(w, g, sides) && UsersetsComplete(sides)
    ensures var visible := Visible(UsersetRows(w, w.relations[(g.obj.typ, g.relation)], g));
      SomeIn(UsersetTargets(visible, g.user), Lfp(w)) <==> SomeUsersetMember(visible, ScopesOf(sides))
  {
    var rows := UsersetRows(w, w.relations[(g.obj.typ, g.relation)], g);
    var visible := Visible(rows);
    forall i | 0 <= i < |visible|
      ensures UsersetTargets(visible, g.user)[i] in Lfp(w) <==> UsersetMember(ScopesOf(sides), visible[i].user)
    {
      assert visible[i] in visible && visible[i] in rows;
      UsersetInLfp(w, g, sides, visible[i]);
    }
  }

  lemma UsersetInLfp(w: World, g: Goal, sides: map<(string, string), Side>, row: Row)
    requires ExclusionFree(w) && UsersetsOk(w, g, sides) && UsersetsComplete(sides)
    requires row in UsersetRows(w, w.relations[(g.obj.typ, g.relation)], g)
    ensures Goal(row.user.obj, row.user.relation, g.user) in Lfp(w) <==> UsersetMember(ScopesOf(sides), row.user)
  {
    UsersetRowOk(w, g, sides, row);
    GoalInLfp(sides[(row.user.obj.typ, row.user.relation)].scope, row.user.relation, row.user.obj);
  }

  // ------------------------------------------------------------ the fast path

  /** `m` lists the objects streamed for the userset type. */
  ghost predicate UsersetStreamed(w: World, g: Goal, sides: map<(string, string), Side>, k: (string, string),
                                  m: multiset<string>) {
    k in sides && SideOk(sides[k], w, g.user, k.0, k.1) &&
      Represents(m, sides[k].scope, k.1, RewriteOf(sides[k].scope, k.1))
  }

  ghost predicate UsersetsStreamed(w: World, g: Goal, sides: map<(string, string), Side>, keys: seq<(string, string)>,
                                   ms: seq<multiset<string>>) {
    |keys| == |ms| && forall c :: 0 <= c < |ms| ==> UsersetStreamed(w, g, sides, keys[c], ms[c])
  }

  lemma StreamedSnoc(w: World, g: Goal, sides: map<(string, string), Side>, keys: seq<(string, string)>, i: nat,
                     ms: seq<multiset<string>>, m: multiset<string>)
    requires i < |keys| && UsersetsStreamed(w, g, sides, keys[..i], ms) && UsersetStreamed(w, g, sides, keys[i], m)
    ensures UsersetsStreamed(w, g, sides, keys[..i + 1], ms + [m])
  {
    var ks, ns := keys[..i + 1], ms + [m];
    forall c | 0 <= c < |ns| ensures UsersetStreamed(w, g, sides, ks[c], ns[c]) {
      if c < i { assert ks[c] == keys[..i][c] && ns[c] == ms[c]; }
    }
  }

  /** What the channels of the first usersets are. */
  ghost predicate UsersetsOpened(w: World, g: Goal, sides: map<(string, string), Side>, keys: seq<(string, string)>,
                                 chs: seq<seq<Msg>>, ms: seq<multiset<string>>, healthy: bool) {
    ChannelsOk(chs, ms) && UsersetsStreamed(w, g, sides, keys, ms) && (healthy ==> NoneFaulty(chs))
  }

  lemma UsersetsSnoc(w: World, g: Goal, sides: map<(string, string), Side>, keys: seq<(string, string)>, i: nat,
                     chs: seq<seq<Msg>>, ms: seq<multiset<string>>, ch: seq<Msg>, m: multiset<string>, healthy: bool)
    requires i < |keys| && UsersetsOpened(w, g, sides, keys[..i], chs, ms, healthy)
    requires UsersetStreamed(w, g, sides, keys[i], m)
    requires Enumerates(Items(ch), Faulty(ch), m) && (healthy ==> !Faulty(ch))
    ensures UsersetsOpened(w, g, sides, keys[..i + 1], chs + [ch], ms + [m], healthy)
  {
    ChannelsSnoc(chs, ms, ch, m);
    StreamedSnoc(w, g, sides, keys, i, ms, m);
  }

  ghost predicate UsersetsHealthy(keys: seq<(string, string)>, sides: map<(string, string), Side>) {
    forall k :: k in keys ==> k in sides && Healthy(sides[k], k.1)
  }

  /** produceLeftChannels for usersets: a channel per admitted userset type. */
  method UsersetChannels(w: World, g: Goal, keys: seq<(string, string)>, sides: map<(string, string), Side>)
    returns (channels: Option<seq<seq<Msg>>>, ghost ms: seq<multiset<string>>)
    requires forall k :: k in keys ==> k in sides && SideOk(sides[k], w, g.user, k.0, k.1)
    ensures channels.Some? ==> ChannelsOk(channels.value, ms) && UsersetsStreamed(w, g, sides, keys, ms)
    ensures UsersetsHealthy(keys, sides) ==> channels.Some? && NoneFaulty(channels.value)
  {
    var chs: seq<seq<Msg>> := [];
    ms := [];
    for i := 0 to |keys|
      invariant UsersetsOpened(w, g, sides, keys[..i], chs, ms, UsersetsHealthy(keys, sides))
    {
      var ch;
      ghost var m;
      assert keys[i] in keys;
      ch, m := UsersetChannel(w, g, sides, keys[i]);
      if ch.None? { return None, ms; }
      UsersetsSnoc(w, g, sides, keys, i, chs, ms, ch.value, m, UsersetsHealthy(keys, sides));
      chs, ms := chs + [ch.value], ms + [m];
    }
    assert keys[..|keys|] == keys;
    return Some(chs), ms;
  }

  method UsersetChannel(w: World, g: Goal, sides: map<(string, string), Side>, k: (string, string))
    returns (ch: Option<seq<Msg>>, ghost m: multiset<string>)
    requires k in sides && SideOk(sides[k], w, g.user, k.0, k.1)
    ensures ch.Some? ==> UsersetStreamed(w, g, sides, k, m) && Enumerates(Items(ch.value), Faulty(ch.value), m)
    ensures Healthy(sides[k], k.1) ==> ch.Some? && !Faulty(ch.value)
  {
    var side := sides[k];
    ch, m := FastPathRewrite(side.scope, k.1, RewriteOf(side.scope, k.1), side.leaves);
  }

  /**
   * An object found on both sides is the object of an assigned userset, and the user has an admitted
   * relation with it.
   */
  lemma SharedObject(w: World, g: Goal, sides: map<(string, string), Side>, row: Row, k: (string, string),
                     m: multiset<string>)
    requires UsersetsOk(w, g, sides) && row in UsersetRows(w, w.relations[(g.obj.typ, g.relation)], g)
    requires k in Admits(w.relations[(g.obj.typ, g.relation)])
    requires UsersetStreamed(w, g, sides, k, m) && ObjectString(row.user.obj) in m
    ensures k.0 == row.user.obj.typ && UsersetMember(ScopesOf(sides), User(row.user.obj, k.1))
  {
    var sc := sides[k].scope;
    UsersetRowOk(w, g, sides, row);
    var o := MemberTyped(sc, k.1, RewriteOf(sc, k.1), ObjectString(row.user.obj));
    ObjectStringParts(o, row.user.obj);
    assert k == (row.user.obj.typ, k.1);
  }

  lemma StreamedMember(w: World, g: Goal, sides: map<(string, string), Side>, u: User, m: multiset<string>)
    requires UsersetStreamed(w, g, sides, (u.obj.typ, u.relation), m) && UsersetMember(ScopesOf(sides), u)
    ensures ObjectString(u.obj) in m
  {
  }

  /** The streamed sets are those of the admitted usersets. */
  ghost predicate AllAdmitted(w: World, g: Goal, sides: map<(string, string), Side>, keys: seq<(string, string)>,
                              ms: seq<multiset<string>>) {
    && UsersetsOk(w, g, sides) && UsersetsStreamed(w, g, sides, keys, ms)
    && forall k :: k in keys <==> k in Admits(w.relations[(g.obj.typ, g.relation)])
  }

  lemma SharedMeansObject(w: World, g: Goal, sides: map<(string, string), Side>, keys: seq<(string, string)>,
                          ms: seq<multiset<string>>, x: string, c: nat)
    requires AllAdmitted(w, g, sides, keys, ms)
    requires c < |ms| && x in ms[c]
    requires x in FoundIn(ParentMessages(UsersetRows(w, w.relations[(g.obj.typ, g.relation)], g)))
    ensures SomeObjectMember(w.relations[(g.obj.typ, g.relation)],
      Visible(UsersetRows(w, w.relations[(g.obj.typ, g.relation)], g)), ScopesOf(sides))
  {
    var rows := UsersetRows(w, w.relations[(g.obj.typ, g.relation)], g);
    var i := FoundParent(rows, x);
    assert keys[c] in keys && Visible(rows)[i] in Visible(rows);
    SharedObject(w, g, sides, Visible(rows)[i], keys[c], ms[c]);
    assert keys[c] == (Visible(rows)[i].user.obj.typ, keys[c].1);
  }

  lemma ObjectMeansShared(w: World, g: Goal, sides: map<(string, string), Side>, keys: seq<(string, string)>,
                          ms: seq<multiset<string>>)
    requires AllAdmitted(w, g, sides, keys, ms)
    requires SomeObjectMember(w.relations[(g.obj.typ, g.relation)],
      Visible(UsersetRows(w, w.relations[(g.obj.typ, g.relation)], g)), ScopesOf(sides))
    ensures Matched(UsersetRows(w, w.relations[(g.obj.typ, g.relation)], g), ms)
  {
    var rel := w.relations[(g.obj.typ, g.relation)];
    var rows := UsersetRows(w, rel, g);
    var visible := Visible(rows);
    var i, r :| 0 <= i < |visible| && (visible[i].user.obj.typ, r) in Admits(rel) &&
      UsersetMember(ScopesOf(sides), User(visible[i].user.obj, r));
    var c :| 0 <= c < |keys| && keys[c] == (visible[i].user.obj.typ, r);
    assert UsersetStreamed(w, g, sides, keys[c], ms[c]);
    StreamedMember(w, g, sides, User(visible[i].user.obj, r), ms[c]);
    ParentFound(rows, i);
  }

  /** The two sides share an object exactly if the user has an admitted relation with the object of some userset. */
  lemma MatchedUsersets(w: World, g: Goal, sides: map<(string, string), Side>, keys: seq<(string, string)>,
                        ms: seq<multiset<string>>)
    requires AllAdmitted(w, g, sides, keys, ms)
    ensures var rows := UsersetRows(w, w.relations[(g.obj.typ, g.relation)], g);
      Matched(rows, ms) <==> SomeObjectMember(w.relations[(g.obj.typ, g.relation)], Visible(rows), ScopesOf(sides))
  {
    var rel := w.relations[(g.obj.typ, g.relation)];
    var rows := UsersetRows(w, rel, g);
    if Matched(rows, ms) {
      var x, c :| x in FoundIn(ParentMessages(rows)) && 0 <= c < |ms| && x in ms[c];
      SharedMeansObject(w, g, sides, keys, ms, x, c);
    }
    if SomeObjectMember(rel, Visible(rows), ScopesOf(sides)) { ObjectMeansShared(w, g, sides, keys, ms); }
  }

  /**
   * A userset the user is in is also found by its object; the other way round if the admitted relations are
   * interchangeable.
   */
  lemma ObjectsAndUsersets(w: World, g: Goal, sides: map<(string, string), Side>)
    requires UsersetsOk(w, g, sides) && UsersetsComplete(sides)
    ensures ScopesReady(w, g.user, w.relations[(g.obj.typ, g.relation)], ScopesOf(sides))
    ensures var rel := w.relations[(g.obj.typ, g.relation)];
      var visible := Visible(UsersetRows(w, rel, g));
      && (SomeUsersetMember(visible, ScopesOf(sides)) ==> SomeObjectMember(rel, visible, ScopesOf(sides)))
      && (Interchangeable(w, g.user, rel, ScopesOf(sides)) && SomeObjectMember(rel, visible, ScopesOf(sides)) ==>
           SomeUsersetMember(visible, ScopesOf(sides)))
  {
    var rel := w.relations[(g.obj.typ, g.relation)];
    var rows := UsersetRows(w, rel, g);
    var visible := Visible(rows);
    ScopesOfReady(w, g, sides);
    if SomeUsersetMember(visible, ScopesOf(sides)) {
      var i :| 0 <= i < |visible| && UsersetMember(ScopesOf(sides), visible[i].user);
      assert visible[i] in visible;
      UsersetRowOk(w, g, sides, visible[i]);
      assert visible[i].user == User(visible[i].user.obj, visible[i].user.relation);
    }
    if Interchangeable(w, g.user, rel, ScopesOf(sides)) && SomeObjectMember(rel, visible, ScopesOf(sides)) {
      var i, r :| 0 <= i < |visible| && (visible[i].user.obj.typ, r) in Admits(rel) &&
        UsersetMember(ScopesOf(sides), User(visible[i].user.obj, r));
      assert visible[i] in visible;
      UsersetRowOk(w, g, sides, visible[i]);
      SameMember(w, g, sides, visible[i].user, r);
    }
  }

  lemma SameMember(w: World, g: Goal, sides: map<(string, string), Side>, u: User, r: string)
    requires UsersetsOk(w, g, sides) && UsersetsComplete(sides)
    requires ScopesReady(w, g.user, w.relations[(g.obj.typ, g.relation)], ScopesOf(sides))
    requires Interchangeable(w, g.user, w.relations[(g.obj.typ, g.relation)], ScopesOf(sides))
    requires (u.obj.typ, u.relation) in Admits(w.relations[(g.obj.typ, g.relation)])
    requires (u.obj.typ, r) in Admits(w.relations[(g.obj.typ, g.relation)])
    ensures UsersetMember(ScopesOf(sides), User(u.obj, r)) <==> UsersetMember(ScopesOf(sides), u)
  {
    var k, l := (u.obj.typ, r), (u.obj.typ, u.relation);
    var scopes := ScopesOf(sides);
    KeyEval(w, g.user, scopes, w.rows, k, u.obj);
    KeyEval(w, g.user, scopes, w.rows, l, u.obj);
    SameTuples(w, g.user, scopes, k, u.obj);
    SameTuples(w, g.user, scopes, l, u.obj);
    LeafSetPossible(scopes[k], u.obj);
    assert LeafSet(Over(scopes[k], w.rows), u.obj) == LeafSet(scopes[k], u.obj) ==
      LeafSet(Over(scopes[l], w.rows), u.obj);
    assert u == User(u.obj, u.relation);
  }

  /** Over its own tuples nothing changes. */
  lemma SameTuples(w: World, user: User, scopes: map<(string, string), Scope>, k: (string, string), o: Object)
    requires k in scopes && ScopeReady(w, user, k, scopes[k]) && ListsAll(scopes[k]) && o.typ == k.0
    ensures UsersetMember(OverAll(scopes, w.rows), User(o, k.1)) <==> UsersetMember(scopes, User(o, k.1))
  {
    var sc, rw := scopes[k], w.relations[k].rewrite;
    InScopeOver(sc, w.rows, k.1, rw);
    MemberByLists(sc, Over(sc, w.rows), k.1, rw, ObjectString(o));
    assert OverAll(scopes, w.rows)[k] == Over(sc, w.rows) && RewriteOf(sc, k.1) == rw;
  }

  /**
   * The answer is that of the slow path and, without exclusion, of the least fixpoint, unless it allows
   * and the admitted relations of a type are not interchangeable.
   */
  ghost predicate UsersetsMean(w: World, g: Goal, sides: map<(string, string), Side>, b: bool)
    requires (g.obj.typ, g.relation) in w.relations
    requires ScopesReady(w, g.user, w.relations[(g.obj.typ, g.relation)], ScopesOf(sides))
  {
    var rel := w.relations[(g.obj.typ, g.relation)];
    var rows := UsersetRows(w, rel, g);
    !b || Interchangeable(w, g.user, rel, ScopesOf(sides)) ==>
      && SlowAnswers(w, UsersetTargets(Visible(rows), g.user), EndsInError(rows), b)
      && (ExclusionFree(w) ==> (b <==> SomeIn(UsersetTargets(Visible(rows), g.user), Lfp(w))))
  }

  /**
   * checkUsersetFastPathV2: an answer without an error says whether the user has an admitted relation
   * with the object of some userset tuple, as far as the leaf reads list it; an error is only given if a
   * read fails. If they list all directly related objects, any unflagged answer of the slow path, which
   * dispatches a check per userset tuple, is the same if the answer is a denial or the admitted relations
   * of each type are interchangeable, and without exclusion it is what the least fixpoint says.
   */
  method CheckUsersetFastPathV2(w: World, g: Goal, sides: map<(string, string), Side>, pick: nat -> nat,
                                leftFirst: nat -> bool)
    returns (a: Answer)
    requires UsersetsOk(w, g, sides)
    ensures a.allowed ==> !a.err
    ensures !a.err ==> var rel := w.relations[(g.obj.typ, g.relation)];
      (a.allowed <==> SomeObjectMember(rel, Visible(UsersetRows(w, rel, g)), ScopesOf(sides)))
    ensures ScopesReady(w, g.user, w.relations[(g.obj.typ, g.relation)], ScopesOf(sides))
    ensures !a.err && UsersetsComplete(sides) ==> UsersetsMean(w, g, sides, a.allowed)
    ensures var rel := w.relations[(g.obj.typ, g.relation)];
      UsersetsHealthy(UsersetKeys(rel.restrictions), sides) && !EndsInError(UsersetRows(w, rel, g)) ==> !a.err
  {
    ScopesOfReady(w, g, sides);
    if UsersetsComplete(sides) { ObjectsAnswer(w, g, sides); }
    a := MatchUsersets(w, g, sides, pick, leftFirst);
  }

  /** The two sides of the userset fast path. */
  method MatchUsersets(w: World, g: Goal, sides: map<(string, string), Side>, pick: nat -> nat, leftFirst: nat -> bool)
    returns (a: Answer)
    requires UsersetsOk(w, g, sides)
    ensures a.allowed ==> !a.err
    ensures !a.err ==> var rel := w.relations[(g.obj.typ, g.relation)];
      (a.allowed <==> SomeObjectMember(rel, Visible(UsersetRows(w, rel, g)), ScopesOf(sides)))
    ensures var rel := w.relations[(g.obj.typ, g.relation)];
      UsersetsHealthy(UsersetKeys(rel.restrictions), sides) && !EndsInError(UsersetRows(w, rel, g)) ==> !a.err
  {
    var rel := w.relations[(g.obj.typ, g.relation)];
    var rows := UsersetRows(w, rel, g);
    var keys := UsersetKeys(rel.restrictions);
    KeysAreAdmitted(rel);
    var channels;
    ghost var ms;
    channels, ms := UsersetChannels(w, g, keys, sides);
    if channels.None? { return Answer(false, true); }
    MatchedUsersets(w, g, sides, keys, ms);
    if |channels.value| == 0 { return Answer(false, false); }
    a := MatchSides(channels.value, ms, ParentMessages(rows), pick, leftFirst);
  }

  lemma ObjectsAnswer(w: World, g: Goal, sides: map<(string, string), Side>)
    requires UsersetsOk(w, g, sides) && UsersetsComplete(sides)
    ensures ScopesReady(w, g.user, w.relations[(g.obj.typ, g.relation)], ScopesOf(sides))
    ensures var rel := w.relations[(g.obj.typ, g.relation)];
      UsersetsMean(w, g, sides, SomeObjectMember(rel, Visible(UsersetRows(w, rel, g)), ScopesOf(sides)))
  {
    ObjectsAndUsersets(w, g, sides);
    UsersetsAnswer(w, g, sides);
    if ExclusionFree(w) { UsersetsInLfp(w, g, sides); }
  }

  lemma KeysAreAdmitted(rel: Relation)
    ensures forall k :: k in UsersetKeys(rel.restrictions) <==> k in Admits(rel)
  {
    KeysAdmitted(rel.restrictions);
    forall k ensures k in UsersetKeys(rel.restrictions) <==> k in Admits(rel) {
      assert Userset(k.0, k.1) in rel.restrictions ==> (k.0, k.1) in Admits(rel);
    }
  }

  // ------------------------------------------------------------ two relations of one type

  /**
   * The goal's relation admits two usersets of a type, both directly assigned; its only tuple names the
   * first userset of an object, and the user has the second relation with that object.
   */
  ghost predicate OwnsOnly(w: World, g: Goal, team: Object, member: string, owner: string) {
    && TwoUsersets(w, g, team, member, owner)
    && w.Rows(g.obj, g.relation) == [Row(User(team, member), Met)] && w.Rows(team, owner) == [Row(g.user, Met)]
    && (forall o: Object, r: string :: o.typ == team.typ && (o, r) != (team, owner) ==> w.Rows(o, r) == [])
  }

  ghost predicate TwoUsersets(w: World, g: Goal, team: Object, member: string, owner: string) {
    && w.fast == imap[] && g.user.relation == "" && g.user.obj.id != "*" && member != owner
    && ValidObject(ObjectString(team)) && ':' !in team.typ
    && (forall k :: k in w.relations ==> k.1 != "")
    && (g.obj.typ, g.relation) in w.relations
    && w.relations[(g.obj.typ, g.relation)] == Relation(This, [Userset(team.typ, member), Userset(team.typ, owner)])
    && (forall r :: (team.typ, r) in w.relations <==> r == member || r == owner)
    && w.relations[(team.typ, member)] == w.relations[(team.typ, owner)] == Relation(This, [Direct(g.user.obj.typ)])
    && (forall r :: r == member || r == owner ==>
         PathOf(Goal(team, r, g.user)) in w.paths && w.paths[PathOf(Goal(team, r, g.user))])
  }

  /** What is read for the team's type: it is listed for the second relation. */
  function OwnerSide(w: World, user: User, team: Object, member: string, owner: string): Side {
    Side(Scope(w, user, team.typ, map[member := 0, owner := 0], map[owner := {ObjectString(team)}]),
         map[member := [], owner := [Batch(Iter([ObjectString(team)], false))]])
  }

  function OwnerSides(w: World, user: User, team: Object, member: string, owner: string): map<(string, string), Side> {
    map[(team.typ, member) := OwnerSide(w, user, team, member, owner),
      (team.typ, owner) := OwnerSide(w, user, team, member, owner)]
  }

  lemma TeamListed(w: World, g: Goal, team: Object, member: string, owner: string)
    requires OwnsOnly(w, g, team, member, owner)
    ensures HasMatch(w, g.user, team, owner) && ListsAll(OwnerSide(w, g.user, team, member, owner).scope)
  {
    var sc := OwnerSide(w, g.user, team, member, owner).scope;
    assert RowMatches(w.relations[(team.typ, owner)], g.user, w.Rows(team, owner)[0]);
    DirectMember(sc, team, owner);
    forall r ensures sc.Listed(r) == DirectObjects(w, g.user, team.typ, r) {
      forall x | x in DirectObjects(w, g.user, team.typ, r) ensures r == owner && x == ObjectString(team) {
        var k :| k in w.rows.Keys && k.0.typ == team.typ && k.1 == r && HasMatch(w, g.user, k.0, r) &&
          ObjectString(k.0) == x;
        assert w.Rows(k.0, r) != [];
      }
    }
  }

  lemma TeamTuples(w: World, g: Goal, team: Object, member: string, owner: string)
    requires OwnsOnly(w, g, team, member, owner)
    ensures CleanTuples(w, team.typ)
  {
    forall o: Object, r: string | o.typ == team.typ ensures CleanRows(w, o, r) {
      if (o, r) == (team, owner) { assert RowTyped(w.relations[(team.typ, owner)], w.Rows(team, owner)[0]); }
    }
  }

  /** The fast path is chosen for these: both relations have weight one. */
  lemma TeamSide(w: World, g: Goal, team: Object, member: string, owner: string, relation: string)
    requires OwnsOnly(w, g, team, member, owner) && (relation == member || relation == owner)
    ensures GoodSide(w, g.user, (team.typ, relation), OwnerSide(w, g.user, team, member, owner))
  {
    var side := OwnerSide(w, g.user, team, member, owner);
    TeamListed(w, g, team, member, owner);
    AllTyped(side.scope);
    TeamLeaves(w, g, team, member, owner);
    TeamTuples(w, g, team, member, owner);
    TeamModel(w, g, team, member, owner);
    assert PathTo(side.scope, relation, team.typ) == PathOf(Goal(team, relation, g.user));
    DirectSide(side, relation);
  }

  lemma TeamLeaves(w: World, g: Goal, team: Object, member: string, owner: string)
    requires OwnsOnly(w, g, team, member, owner)
    ensures var side := OwnerSide(w, g.user, team, member, owner);
      LeavesOk(side.scope, side.leaves) && !SomeLeafFaulty(side.leaves)
  {
    OneListed(ObjectString(team));
  }

  lemma TeamModel(w: World, g: Goal, team: Object, member: string, owner: string)
    requires OwnsOnly(w, g, team, member, owner)
    ensures var sc := OwnerSide(w, g.user, team, member, owner).scope; AllDirect(sc) && PlainUser(sc)
  {
  }

  lemma TeamSidesOk(w: World, g: Goal, team: Object, member: string, owner: string)
    requires OwnsOnly(w, g, team, member, owner)
    ensures AllGood(w, g, OwnerSides(w, g.user, team, member, owner))
  {
    TeamSide(w, g, team, member, owner, member);
    TeamSide(w, g, team, member, owner, owner);
    OnlyTuple(w, g, team, member, owner);
    BothGood(w, g, team.typ, member, owner, OwnerSide(w, g.user, team, member, owner));
  }

  /** The fast path is chosen, and all reads are complete and do not fail. */
  ghost predicate AllGood(w: World, g: Goal, sides: map<(string, string), Side>) {
    && UsersetsOk(w, g, sides) && UsersetsComplete(sides)
    && UsersetsHealthy(UsersetKeys(w.relations[(g.obj.typ, g.relation)].restrictions), sides)
  }

  ghost predicate GoodSide(w: World, user: User, k: (string, string), side: Side) {
    ':' !in k.0 && SideOk(side, w, user, k.0, k.1) && Healthy(side, k.1) && ListsAll(side.scope)
  }

  lemma BothGood(w: World, g: Goal, typ: string, member: string, owner: string, side: Side)
    requires (g.obj.typ, g.relation) in w.relations && CleanRows(w, g.obj, g.relation) && g.user.relation == ""
    requires w.relations[(g.obj.typ, g.relation)].restrictions == [Userset(typ, member), Userset(typ, owner)]
    requires GoodSide(w, g.user, (typ, member), side) && GoodSide(w, g.user, (typ, owner), side)
    ensures AllGood(w, g, map[(typ, member) := side, (typ, owner) := side])
  {
    var sides := map[(typ, member) := side, (typ, owner) := side];
    forall k | k in sides ensures GoodSide(w, g.user, k, sides[k]) {}
    TwoAdmitted(w.relations[(g.obj.typ, g.relation)], typ, member, owner);
    EachGood(w, g, sides);
  }

  lemma EachGood(w: World, g: Goal, sides: map<(string, string), Side>)
    requires (g.obj.typ, g.relation) in w.relations && CleanRows(w, g.obj, g.relation) && g.user.relation == ""
    requires forall k :: k in Admits(w.relations[(g.obj.typ, g.relation)]) ==> k in sides
    requires forall k :: k in UsersetKeys(w.relations[(g.obj.typ, g.relation)].restrictions) ==> k in sides
    requires forall k :: k in sides ==> GoodSide(w, g.user, k, sides[k])
    ensures AllGood(w, g, sides)
  {
  }

  lemma TwoAdmitted(rel: Relation, typ: string, member: string, owner: string)
    requires rel.restrictions == [Userset(typ, member), Userset(typ, owner)]
    ensures forall k :: k in Admits(rel) ==> k == (typ, member) || k == (typ, owner)
    ensures forall k :: k in UsersetKeys(rel.restrictions) ==> k in Admits(rel)
  {
    KeysAreAdmitted(rel);
    forall k | k in Admits(rel)
      ensures k == (typ, member) || k == (typ, owner)
    {
      assert Userset(k.0, k.1) in rel.restrictions;
    }
  }

  lemma OnlyTuple(w: World, g: Goal, team: Object, member: string, owner: string)
    requires OwnsOnly(w, g, team, member, owner)
    ensures CleanRows(w, g.obj, g.relation)
  {
    var rel := w.relations[(g.obj.typ, g.relation)];
    assert rel.restrictions[0] == Userset(team.typ, member) && member == (team.typ, member).1;
  }

  lemma NotMember(w: World, g: Goal, team: Object, member: string, owner: string)
    requires OwnsOnly(w, g, team, member, owner)
    ensures Derives(w, 2, Goal(team, member, g.user), false)
  {
    var t := Goal(team, member, g.user);
    assert w.Rows(team, member) == [] && DirectRows(w, t) == [] && PublicRows(w, t) == [];
    assert w.relations[(team.typ, member)].restrictions[0] == Direct(g.user.obj.typ);
    assert DirectlyDerives(w, 1, t, false);
  }

  lemma SlowDenies(w: World, g: Goal, team: Object, member: string, owner: string)
    requires OwnsOnly(w, g, team, member, owner)
    ensures var rows := UsersetRows(w, w.relations[(g.obj.typ, g.relation)], g);
      TargetsDerive(w, 2, UsersetTargets(Visible(rows), g.user), EndsInError(rows), false)
  {
    NotMember(w, g, team, member, owner);
    OwnerFound(w, g, team, member, owner);
  }

  lemma OwnerFound(w: World, g: Goal, team: Object, member: string, owner: string)
    requires OwnsOnly(w, g, team, member, owner)
    ensures var rel := w.relations[(g.obj.typ, g.relation)];
      var rows := UsersetRows(w, rel, g);
      && Only(Visible(rows), Row(User(team, member), Met)) && !EndsInError(rows)
      && SomeObjectMember(rel, Visible(rows), ScopesOf(OwnerSides(w, g.user, team, member, owner)))
  {
    var rel := w.relations[(g.obj.typ, g.relation)];
    var rows := UsersetRows(w, rel, g);
    var sides := OwnerSides(w, g.user, team, member, owner);
    assert rel.restrictions[0] == Userset(team.typ, member) && rel.restrictions[1] == Userset(team.typ, owner);
    OneUserset(w, g.user, g.relation, w.rows, g.obj, Row(User(team, member), Met));
    TeamSide(w, g, team, member, owner, owner);
    TeamListed(w, g, team, member, owner);
    ListedMember(sides[(team.typ, owner)].scope, team, owner);
    assert UsersetMember(ScopesOf(sides), User(team, owner));
    assert (Visible(rows)[0].user.obj.typ, owner) in Admits(rel) by {
      assert Userset(team.typ, owner) in rel.restrictions;
    }
  }

  /**
   * The fast path is chosen and allows, as it finds the team, of which the user is an owner, although
   * the slow path settles that the user is not a member.
   */
  method ForgetsRelation(w: World, g: Goal, team: Object, member: string, owner: string, pick: nat -> nat,
                         leftFirst: nat -> bool)
    returns (a: Answer)
    requires OwnsOnly(w, g, team, member, owner)
    ensures a == Answer(true, false)
    ensures var rows := UsersetRows(w, w.relations[(g.obj.typ, g.relation)], g);
      TargetsDerive(w, 2, UsersetTargets(Visible(rows), g.user), EndsInError(rows), false)
  {
    TeamSidesOk(w, g, team, member, owner);
    OwnerFound(w, g, team, member, owner);
    SlowDenies(w, g, team, member, owner);
    a := FindsObject(w, g, OwnerSides(w, g.user, team, member, owner), pick, leftFirst);
  }

  /** If no read fails, the fast path allows whenever the objects match. */
  method FindsObject(w: World, g: Goal, sides: map<(string, string), Side>, pick: nat -> nat, leftFirst: nat -> bool)
    returns (a: Answer)
    requires AllGood(w, g, sides)
    requires var rel := w.relations[(g.obj.typ, g.relation)];
      !EndsInError(UsersetRows(w, rel, g)) && SomeObjectMember(rel, Visible(UsersetRows(w, rel, g)), ScopesOf(sides))
    ensures a == Answer(true, false)
  {
    a := CheckUsersetFastPathV2(w, g, sides, pick, leftFirst);
  }

  const ANNE := User(Object("user", "anne"), "")
  const DOC := Object("doc", "1")
  const TEAM := Object("team", "1")
  const PLAIN := Relation(This, [Direct("user")])
  const VIEWER := Relation(This, [Userset("team", "member"), Userset("team", "owner")])

  /** `doc:1#viewer@team:1#member` and `team:1#owner@user:anne`. */
  const TWO_RELATIONS := World(
    {"doc", "team", "user"},
    map[("doc", "viewer") := VIEWER, ("team", "member") := PLAIN, ("team", "owner") := PLAIN],
    map[(DOC, "viewer") := [Row(User(TEAM, "member"), Met)], (TEAM, "owner") := [Row(ANNE, Met)]],
    map[PathKey("user", "", "member", "team") := true, PathKey("user", "", "owner", "team") := true],
    imap[]
  )

  lemma TeamIsValid()
    ensures ValidObject(ObjectString(TEAM))
  {
    var s := ObjectString(TEAM);
    assert s == "team:1" && s[4] == ':' && s[..4] == "team" && s[5..] == "1";
  }

  /** For instance, anne owns the team whose members are the viewers. */
  lemma TwoRelationsMislead()
    ensures OwnsOnly(TWO_RELATIONS, Goal(DOC, "viewer", ANNE), TEAM, "member", "owner")
  {
    TwoRelationsModel();
  }

  lemma TwoRelationsModel()
    ensures TwoUsersets(TWO_RELATIONS, Goal(DOC, "viewer", ANNE), TEAM, "member", "owner")
  {
    TeamIsValid();
  }
}
