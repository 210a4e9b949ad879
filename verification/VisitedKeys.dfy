/** The visited paths of a check are kept as texts; for well-named goals this is the same as keeping the goals. */
module VisitedKeys {
  import opened Model
  import opened TupleText
  import opened FastPath
  import opened FastMeaning

  /** The key of a goal: the text of its tuple. */
  function GoalKey(g: Goal): string {
    Print(GoalTuple(g))
  }

  function GoalTuple(g: Goal): TupleKey {
    TupleKey(ObjectString(g.obj), g.relation, FromUserParts(g.user.obj.typ, g.user.obj.id, g.user.relation))
  }

  predicate WellNamedObject(o: Object) {
    TupleText.Plain(o.typ, ":#") && TupleText.Plain(o.id, ":#")
  }

  /** The parts of the goal pass request validation. */
  predicate WellNamed(g: Goal) {
    && WellNamedObject(g.obj) && ValidRelation(g.relation) && WellNamedObject(g.user.obj)
    && (g.user.relation != "" ==> TupleText.Plain(g.user.relation, ":#*") && '*' !in g.user.obj.id)
  }

  lemma ObjectValid(o: Object)
    requires WellNamedObject(o)
    ensures ValidObject(ObjectString(o))
  {
    var s, i := ObjectString(o), |o.typ|;
    assert s[i] == ':' && s[..i] == o.typ && s[i + 1..] == o.id;
  }

  lemma UserValid(u: User)
    requires WellNamedObject(u.obj) && (u.relation != "" ==> TupleText.Plain(u.relation, ":#*") && '*' !in u.obj.id)
    ensures ValidUser(FromUserParts(u.obj.typ, u.obj.id, u.relation))
  {
    var s := FromUserParts(u.obj.typ, u.obj.id, u.relation);
    if u.relation == "" {
      ObjectValid(u.obj);
      assert s == ObjectString(u.obj);
    } else {
      var i := |u.obj.typ|;
      var j := i + 1 + |u.obj.id|;
      assert s == u.obj.typ + ":" + u.obj.id + "#" + u.relation;
      assert s[i] == ':' && s[j] == '#' && s[..i] == u.obj.typ && s[i + 1..j] == u.obj.id && s[j + 1..] == u.relation;
      assert ValidUserset(s);
    }
  }

  /** Different goals have different keys. */
  lemma GoalKeyInjective(g: Goal, h: Goal)
    requires WellNamed(g) && WellNamed(h) && GoalKey(g) == GoalKey(h)
    ensures g == h
  {
    ObjectValid(g.obj);
    ObjectValid(h.obj);
    UserValid(g.user);
    UserValid(h.user);
    PrintInjective(GoalTuple(g), GoalTuple(h));
    PlainAvoids(g.obj.typ, ":#", ':');
    PlainAvoids(h.obj.typ, ":#", ':');
    ObjectStringParts(g.obj, h.obj);
    UserParts(g.user);
    UserParts(h.user);
  }

  lemma UserParts(u: User)
    requires WellNamedObject(u.obj) && (u.relation != "" ==> TupleText.Plain(u.relation, ":#*"))
    ensures ToUserParts(FromUserParts(u.obj.typ, u.obj.id, u.relation)) == (u.obj.typ, u.obj.id, u.relation)
  {
    PlainAvoids(u.obj.typ, ":#", ':');
    PlainAvoids(u.obj.typ, ":#", '#');
    PlainAvoids(u.obj.id, ":#", '#');
    if u.relation != "" { PlainAvoids(u.relation, ":#*", '#'); }
    SeparableParts(u.obj.typ, u.obj.id, u.relation);
  }

  /** Looking up a key among the keys of the visited goals finds exactly a visited goal. */
  lemma VisitedByKey(visited: set<Goal>, g: Goal)
    requires WellNamed(g) && forall h :: h in visited ==> WellNamed(h)
    ensures GoalKey(g) in (set h | h in visited :: GoalKey(h)) <==> g in visited
  {
    if h :| h in visited && GoalKey(h) == GoalKey(g) { GoalKeyInjective(g, h); }
  }

  /** IsSelfDefining: the tuple's user is the userset of its own object and relation. */
  function IsSelfDefining(t: TupleKey): bool {
    var (userObject, userRelation) := SplitObjectRelation(t.user);
    t.relation == userRelation && t.obj == userObject
  }

  /** A user's text is split where it was put together. */
  lemma SplitsUser(u: User)
    requires WellNamedObject(u.obj) && '#' !in u.relation
    ensures SplitObjectRelation(FromUserParts(u.obj.typ, u.obj.id, u.relation)) == (ObjectString(u.obj), u.relation)
    ensures u.relation != "" ==>
      FromUserParts(u.obj.typ, u.obj.id, u.relation) == ObjectString(u.obj) + "#" + u.relation
  {
    var o, text := ObjectString(u.obj), FromUserParts(u.obj.typ, u.obj.id, u.relation);
    PlainAvoids(u.obj.typ, ":#", '#');
    PlainAvoids(u.obj.id, ":#", '#');
    assert '#' !in o;
    if u.relation != "" {
      assert text == o + ['#'] + u.relation;
      LastAt(o, '#', u.relation);
      assert text[..|o|] == o && text[|o| + 1..] == u.relation;
    }
  }

  /** The user of a well-named goal is taken for its own userset exactly if its text is that of object and relation. */
  lemma SelfDefiningText(g: Goal)
    requires WellNamed(g)
    ensures SelfDefining(g) <==> IsSelfDefining(GoalTuple(g))
    ensures SelfDefining(g) <==> GoalTuple(g).user == ObjectString(g.obj) + "#" + g.relation
  {
    SplitsUser(g.user);
    SplitsUser(User(g.obj, g.relation));
    if ObjectString(g.obj) == ObjectString(g.user.obj) {
      PlainAvoids(g.obj.typ, ":#", ':');
      PlainAvoids(g.user.obj.typ, ":#", ':');
      ObjectStringParts(g.obj, g.user.obj);
    }
  }
}
