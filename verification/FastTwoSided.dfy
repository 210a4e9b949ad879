/** The weight-two fast paths for tuple-to-usersets and usersets agree with dispatching a check per tuple. */
module FastTwoSided {
  import opened Options
  import opened TupleText
  import opened IteratorStreams
  import opened Model
  import opened Soundness
  import opened Fixpoint
  import opened FastPath
  import opened FastMeaning
  import opened FastFixpoint
  import opened TwoSided

  // ------------------------------------------------------------ matching the two sides

  /** FanInIteratorChannels: forwards the messages of all channels, in an order decided by `pick`. */
  method FanIn(channels: seq<seq<Msg>>, pick: nat -> nat) returns (left: seq<Msg>)
    ensures FansIn(left, channels)
  {
    left := [];
    var rest := channels;
    var step := 0;
    while exists c :: 0 <= c < |rest| && rest[c] != []
      invariant multiset(left) + MessagesOf(rest) == MessagesOf(channels)
      decreases |MessagesOf(rest)|
    {
      var c :| 0 <= c < |rest| && rest[c] != [];
      var p := pick(step);
      if p < |rest| && rest[p] != [] { c := p; }
      ForwardOne(rest, c);
      left := left + [rest[c][0]];
      rest := rest[c := rest[c][1..]];
      step := step + 1;
    }
    NoMessages(rest);
  }

  /** Moving the head of one channel to the output keeps the messages in circulation. */
  lemma {:induction false} ForwardOne(cs: seq<seq<Msg>>, c: nat)
    requires c < |cs| && cs[c] != []
    ensures MessagesOf(cs) == multiset{cs[c][0]} + MessagesOf(cs[c := cs[c][1..]])
  {
    var ds := cs[c := cs[c][1..]];
    if c == 0 {
      assert ds[1..] == cs[1..] && cs[0] == [cs[0][0]] + cs[0][1..];
    } else {
      assert ds[1..] == cs[1..][c - 1 := cs[1..][c - 1][1..]];
      ForwardOne(cs[1..], c - 1);
    }
  }

  lemma {:induction false} NoMessages(cs: seq<seq<Msg>>)
    requires forall c :: 0 <= c < |cs| ==> cs[c] == []
    ensures MessagesOf(cs) == multiset{}
  {
    if cs != [] { NoMessages(cs[1..]); }
  }

  /** An error-free answer says whether some right-hand object is in one of the streamed sets. */
  method MatchSides(channels: seq<seq<Msg>>, ghost ms: seq<multiset<string>>, right: seq<RightMsg>, pick: nat -> nat,
                    leftFirst: nat -> bool)
    returns (a: Answer)
    requires ChannelsOk(channels, ms)
    ensures !a.err ==> (a.allowed <==> exists x, c :: x in FoundIn(right) && 0 <= c < |ms| && x in ms[c])
    ensures a.allowed ==> !a.err
    ensures a.err ==> RightFails(right) || exists c :: 0 <= c < |channels| && Faulty(channels[c])
  {
    var left := FanIn(channels, pick);
    FanInKeeps(left, channels);
    ghost var i, j;
    a, i, j := ResolveFastPath(left, right, leftFirst);
    if a.allowed {
      MeetsSome(channels, ms, left, right);
    } else if !a.err && right != [] {
      MeetsNone(channels, ms, left, right);
    }
  }

  lemma MeetsSome(channels: seq<seq<Msg>>, ms: seq<multiset<string>>, left: seq<Msg>, right: seq<RightMsg>)
    requires ChannelsOk(channels, ms) && FansIn(left, channels) && Meet(ItemSet(left), FoundIn(right))
    ensures exists x, c :: x in FoundIn(right) && 0 <= c < |ms| && x in ms[c]
  {
    FanInKeeps(left, channels);
    var x :| x in ItemSet(left) * FoundIn(right);
    var c :| 0 <= c < |channels| && x in Items(channels[c]);
    assert x in multiset(Items(channels[c]));
    assert x in ms[c];
  }

  lemma MeetsNone(channels: seq<seq<Msg>>, ms: seq<multiset<string>>, left: seq<Msg>, right: seq<RightMsg>)
    requires ChannelsOk(channels, ms) && FansIn(left, channels) && !Meet(ItemSet(left), FoundIn(right)) && !Faulty(left)
    ensures forall x, c :: x in FoundIn(right) && 0 <= c < |ms| ==> x !in ms[c]
  {
    FanInKeeps(left, channels);
    forall x, c | x in FoundIn(right) && 0 <= c < |ms| ensures x !in ms[c] {
      assert !Faulty(channels[c]);
      assert x in ItemSet(left) ==> x in ItemSet(left) * FoundIn(right);
      assert x in ms[c] <==> x in Items(channels[c]);
    }
  }

  // ------------------------------------------------------------ tuple-to-userset

  /** What the fast path needs to know about one parent type: how its relations rank, and its leaf reads. */
  datatype Side = Side(scope: Scope, leaves: map<string, seq<Msg>>)

  ghost predicate SideOk(side: Side, w: World, user: User, typ: string, relation: string) {
    var sc := side.scope;
    && sc.w == w && sc.user == user && sc.typ == typ
    && PlainUser(sc) && CleanTuples(w, typ) && WellFormedAll(sc)
    && FastReady(sc, relation) && LeavesOk(sc, side.leaves) && ListsTyped(sc)
  }

  /** The leaf reads of every parent type list all directly related objects. */
  ghost predicate SidesComplete(sides: map<string, Side>) {
    forall t :: t in sides ==> ListsAll(sides[t].scope)
  }

  /** The relations of the type are directly assigned to objects only. */
  ghost predicate AllDirect(sc: Scope) {
    forall r :: (sc.typ, r) in sc.w.relations ==>
      var rel := sc.w.relations[(sc.typ, r)];
      r in sc.rank && rel.rewrite == This && forall i :: 0 <= i < |rel.restrictions| ==> !rel.restrictions[i].Userset?
  }

  /** A type with such relations can be fast-pathed. */
  lemma DirectSide(side: Side, relation: string)
    requires var sc := side.scope;
      && PlainUser(sc) && CleanTuples(sc.w, sc.typ) && LeavesOk(sc, side.leaves) && ListsTyped(sc) &&
           sc.w.fast == imap[]
      && AllDirect(sc) && (sc.typ, relation) in sc.w.relations && PathTo(sc, relation, sc.typ) in sc.w.paths &&
           sc.w.paths[PathTo(sc, relation, sc.typ)]
    ensures SideOk(side, side.scope.w, side.scope.user, side.scope.typ, relation)
    ensures relation in side.leaves && !SomeLeafFaulty(side.leaves) ==> Healthy(side, relation)
  {
    var sc := side.scope;
    assert Ranked(sc.w, sc.typ, sc.rank);
  }

  /** A leaf read that lists one object, or none. */
  lemma OneListed(x: string)
    requires ValidObject(x)
    ensures var ch := [Batch(Iter([x], false))]; Enumerates(Items(ch), Faulty(ch), multiset({x})) && !Faulty(ch)
    ensures Enumerates(Items([]), Faulty([]), multiset({})) && !Faulty([])
  {
    var ch := [Batch(Iter([x], false))];
    assert ch[1..] == [] && Items(ch[1..]) == [] && Items(ch) == [x];
    assert multiset([x]) == multiset({x});
  }

  /** All leaf reads the relation needs start, and none fails. */
  ghost predicate Healthy(side: Side, relation: string) {
    var sc := side.scope;
    (sc.typ, relation) in sc.w.relations && InScope(sc, relation, RewriteOf(sc, relation)) &&
    Starts(sc, relation, RewriteOf(sc, relation), side.leaves) && !SomeLeafFaulty(side.leaves)
  }

  ghost predicate SidesHealthy(w: World, restrictions: seq<Restriction>, computed: string, sides: map<string, Side>) {
    forall r :: r in restrictions && (r.typ, computed) in w.relations ==>
      r.typ in sides && Healthy(sides[r.typ], computed)
  }

  function RewriteOf(sc: Scope, relation: string): Rewrite
    requires (sc.typ, relation) in sc.w.relations
  {
    sc.w.relations[(sc.typ, relation)].rewrite
  }

  /** The tupleset only admits objects, and each admitted type either lacks the relation or can be fast-pathed. */
  ghost predicate ParentsOk(w: World, g: Goal, tupleset: string, computed: string, sides: map<string, Side>) {
    && (g.obj.typ, tupleset) in w.relations && CleanRows(w, g.obj, tupleset)
    && forall r :: r in w.relations[(g.obj.typ, tupleset)].restrictions ==>
      r.Direct? && r.typ in w.types &&
        ((r.typ, computed) in w.relations ==> r.typ in sides && SideOk(sides[r.typ], w, g.user, r.typ, computed))
  }

  /** The parent is among the objects streamed for its type, as computed from what the leaf reads list. */
  ghost predicate ParentMember(w: World, user: User, computed: string, sides: map<string, Side>, parent: Object) {
    (parent.typ, computed) in w.relations && parent.typ in sides &&
      SideOk(sides[parent.typ], w, user, parent.typ, computed) &&
    Member(sides[parent.typ].scope, computed, RewriteOf(sides[parent.typ].scope, computed), ObjectString(parent))
  }

  ghost predicate SomeParentMember(w: World, g: Goal, rows: seq<Row>, computed: string, sides: map<string, Side>) {
    exists i :: 0 <= i < |rows| && ParentMember(w, g.user, computed, sides, rows[i].user.obj)
  }

  /** A bound on the levels needed: above the rank of the relation on every side. */
  ghost predicate DeepEnough(sides: map<string, Side>, computed: string, n: nat) {
    forall t :: t in sides && computed in sides[t].scope.rank ==> n > sides[t].scope.rank[computed] + 1
  }

  lemma ParentTyped(w: World, g: Goal, tupleset: string, computed: string, sides: map<string, Side>, row: Row)
    requires ParentsOk(w, g, tupleset, computed, sides) && row in w.Rows(g.obj, tupleset)
    ensures row.user.relation == "" && Direct(row.user.obj.typ) in w.relations[(g.obj.typ, tupleset)].restrictions
    ensures row.user.obj.typ in w.types
    ensures (row.user.obj.typ, computed) in w.relations ==>
      row.user.obj.typ in sides && SideOk(sides[row.user.obj.typ], w, g.user, row.user.obj.typ, computed)
  {
  }

  /** What a check of a parent derives is whether the parent is streamed. */
  lemma ParentDerived(w: World, g: Goal, tupleset: string, computed: string, sides: map<string, Side>, row: Row,
                      n: nat, b: bool)
    requires ParentsOk(w, g, tupleset, computed, sides) && row in w.Rows(g.obj, tupleset)
    requires !SkipsParent(w, row.user.obj.typ, computed)
    requires SidesComplete(sides) && Derives(w, n, Goal(row.user.obj, computed, g.user), b)
    ensures b == ParentMember(w, g.user, computed, sides, row.user.obj)
  {
    ParentTyped(w, g, tupleset, computed, sides, row);
    GoalDerived(sides[row.user.obj.typ].scope, computed, row.user.obj, n, b);
  }

  /** A parent that is streamed is among the targets of the slow path. */
  lemma MemberDispatched(w: World, g: Goal, rows: seq<Row>, computed: string, sides: map<string, Side>)
    requires SomeParentMember(w, g, rows, computed, sides)
    ensures exists k ::
      && 0 <= k < |ParentTargets(w, rows, computed, g.user)|
      && ParentMember(w, g.user, computed, sides, ParentTargets(w, rows, computed, g.user)[k].obj)
  {
    var targets := ParentTargets(w, rows, computed, g.user);
    var i :| 0 <= i < |rows| && ParentMember(w, g.user, computed, sides, rows[i].user.obj);
    assert Goal(rows[i].user.obj, computed, g.user) in targets;
    var k :| 0 <= k < |targets| && targets[k] == Goal(rows[i].user.obj, computed, g.user);
  }

  /** Dispatching a check per parent derives nothing but whether some parent is streamed. */
  lemma ParentsDerive(w: World, g: Goal, tupleset: string, computed: string, sides: map<string, Side>, n: nat, b: bool)
    requires ParentsOk(w, g, tupleset, computed, sides) && SidesComplete(sides)
    requires TargetsDerive(w, n, ParentTargets(w, Visible(w.Rows(g.obj, tupleset)), computed, g.user),
      EndsInError(w.Rows(g.obj, tupleset)), b)
    ensures b == SomeParentMember(w, g, Visible(w.Rows(g.obj, tupleset)), computed, sides)
  {
    var visible := Visible(w.Rows(g.obj, tupleset));
    var targets := ParentTargets(w, visible, computed, g.user);
    forall k | 0 <= k < |targets| && Derives(w, n, targets[k], b)
      ensures b == ParentMember(w, g.user, computed, sides, targets[k].obj)
      ensures (b ==> SomeParentMember(w, g, visible, computed, sides))
    {
      assert targets[k] in targets;
      var i :| 0 <= i < |visible| && targets[k] == Goal(visible[i].user.obj, computed, g.user) &&
        !SkipsParent(w, visible[i].user.obj.typ, computed);
      ParentDerived(w, g, tupleset, computed, sides, visible[i], n, b);
    }
    if SomeParentMember(w, g, visible, computed, sides) { MemberDispatched(w, g, visible, computed, sides); }
  }

  /** The conditions on the tuples involved evaluate. */
  ghost predicate ParentsEvaluate(w: World, g: Goal, tupleset: string, sides: map<string, Side>) {
    Evaluable(w, g.obj, tupleset) && forall t :: t in sides ==> EvaluableTuples(w, t)
  }

  /** If conditions evaluate, dispatching a check per parent settles to whether some parent is streamed. */
  lemma ParentsSettle(w: World, g: Goal, tupleset: string, computed: string, sides: map<string, Side>, n: nat)
    requires ParentsOk(w, g, tupleset, computed, sides) && SidesComplete(sides)
    requires DeepEnough(sides, computed, n) && ParentsEvaluate(w, g, tupleset, sides)
    ensures var rows := w.Rows(g.obj, tupleset);
      TargetsDerive(w, n, ParentTargets(w, Visible(rows), computed, g.user), EndsInError(rows),
        SomeParentMember(w, g, Visible(rows), computed, sides))
  {
    var rows := w.Rows(g.obj, tupleset);
    var visible := Visible(rows);
    var targets := ParentTargets(w, visible, computed, g.user);
    NotBroken(rows, rows);
    forall k | 0 <= k < |targets|
      ensures Derives(w, n, targets[k], ParentMember(w, g.user, computed, sides, targets[k].obj))
    {
      assert targets[k] in targets;
      var i :| 0 <= i < |visible| && targets[k] == Goal(visible[i].user.obj, computed, g.user) &&
        !SkipsParent(w, visible[i].user.obj.typ, computed);
      ParentTyped(w, g, tupleset, computed, sides, visible[i]);
      GoalAgrees(sides[targets[k].obj.typ].scope, computed, targets[k].obj, n);
      if ParentMember(w, g.user, computed, sides, targets[k].obj) {
        assert SomeParentMember(w, g, visible, computed, sides);
      }
    }
    if SomeParentMember(w, g, visible, computed, sides) { MemberDispatched(w, g, visible, computed, sides); }
    assert (forall k :: 0 <= k < |targets| ==> !ParentMember(w, g.user, computed, sides, targets[k].obj)) ||
      SomeParentMember(w, g, visible, computed, sides) by {
      forall k | 0 <= k < |targets| && ParentMember(w, g.user, computed, sides, targets[k].obj)
        ensures SomeParentMember(w, g, visible, computed, sides)
      {
        assert targets[k] in targets;
      }
    }
  }

  /** produceLeftChannels: a channel per admitted parent type that defines the relation. */
  method ParentChannels(w: World, g: Goal, restrictions: seq<Restriction>, computed: string, sides: map<string, Side>)
    returns (channels: Option<seq<seq<Msg>>>, ghost ms: seq<multiset<string>>, ghost types: seq<string>)
    requires forall r :: r in restrictions ==> (r.typ, computed) in w.relations ==>
      r.typ in sides && SideOk(sides[r.typ], w, g.user, r.typ, computed)
    ensures channels.Some? ==> ChannelsOk(channels.value, ms) && TypesStreamed(w, g, computed, sides, types, ms)
    ensures channels.Some? ==> forall r :: r in restrictions && (r.typ, computed) in w.relations ==> r.typ in types
    ensures SidesHealthy(w, restrictions, computed, sides) ==> channels.Some? && NoneFaulty(channels.value)
  {
    var chs: seq<seq<Msg>> := [];
    ms, types := [], [];
    ghost var healthy := SidesHealthy(w, restrictions, computed, sides);
    for i := 0 to |restrictions|
      invariant TypesOpened(w, g, computed, sides, types, chs, ms, healthy)
      invariant forall j :: 0 <= j < i && (restrictions[j].typ, computed) in w.relations ==>
        restrictions[j].typ in types
    {
      var typ := restrictions[i].typ;
      if (typ, computed) !in w.relations { continue; }
      assert restrictions[i] in restrictions;
      var ch;
      ghost var m;
      ch, m := SideChannel(w, g, computed, sides, typ);
      if ch.None? { return None, ms, types; }
      TypesSnoc(w, g, computed, sides, types, chs, ms, healthy, typ, ch.value, m);
      chs, ms, types := chs + [ch.value], ms + [m], types + [typ];
    }
    return Some(chs), ms, types;
  }

  predicate NoneFaulty(channels: seq<seq<Msg>>) {
    forall c :: 0 <= c < |channels| ==> !Faulty(channels[c])
  }

  /** `ms[c]` lists the streamed objects of `types[c]`. */
  ghost predicate TypesStreamed(w: World, g: Goal, computed: string, sides: map<string, Side>, types: seq<string>,
                                ms: seq<multiset<string>>) {
    |types| == |ms| && forall c :: 0 <= c < |ms| ==> TypeStreamed(w, g, computed, sides, types[c], ms[c])
  }

  /** What the channels opened so far are. */
  ghost predicate TypesOpened(w: World, g: Goal, computed: string, sides: map<string, Side>, types: seq<string>,
                              chs: seq<seq<Msg>>, ms: seq<multiset<string>>, healthy: bool) {
    ChannelsOk(chs, ms) && TypesStreamed(w, g, computed, sides, types, ms) && (healthy ==> NoneFaulty(chs))
  }

  lemma TypesSnoc(w: World, g: Goal, computed: string, sides: map<string, Side>, types: seq<string>,
                  chs: seq<seq<Msg>>, ms: seq<multiset<string>>, healthy: bool, typ: string, ch: seq<Msg>,
                  m: multiset<string>)
    requires TypesOpened(w, g, computed, sides, types, chs, ms, healthy)
    requires TypeStreamed(w, g, computed, sides, typ, m)
    requires Enumerates(Items(ch), Faulty(ch), m) && (healthy ==> !Faulty(ch))
    ensures TypesOpened(w, g, computed, sides, types + [typ], chs + [ch], ms + [m], healthy)
  {
    ChannelsSnoc(chs, ms, ch, m);
  }

  method SideChannel(w: World, g: Goal, computed: string, sides: map<string, Side>, typ: string)
    returns (ch: Option<seq<Msg>>, ghost m: multiset<string>)
    requires (typ, computed) in w.relations && typ in sides && SideOk(sides[typ], w, g.user, typ, computed)
    ensures ch.Some? ==> TypeStreamed(w, g, computed, sides, typ, m) && Enumerates(Items(ch.value), Faulty(ch.value), m)
    ensures Healthy(sides[typ], computed) ==> ch.Some? && !Faulty(ch.value)
  {
    var side := sides[typ];
    ch, m := FastPathRewrite(side.scope, computed, RewriteOf(side.scope, computed), side.leaves);
  }

  /** `m` lists the streamed objects of the type. */
  ghost predicate TypeStreamed(w: World, g: Goal, computed: string, sides: map<string, Side>, typ: string,
                               m: multiset<string>) {
    typ in sides && SideOk(sides[typ], w, g.user, typ, computed) && (typ, computed) in w.relations &&
    Represents(m, sides[typ].scope, computed, RewriteOf(sides[typ].scope, computed))
  }

  /** The parents the tuples of the tupleset name, as the right-hand channel delivers them. */
  function ParentMessages(rows: seq<Row>): seq<RightMsg> {
    var visible := Visible(rows);
    seq(|visible|, i requires 0 <= i < |visible| => Found(ObjectString(visible[i].user.obj))) +
      (if EndsInError(rows) then [LookupFailed] else [])
  }

  /** Some tuple names an object that is in one of the streamed sets. */
  ghost predicate Matched(rows: seq<Row>, ms: seq<multiset<string>>) {
    exists x, c :: x in FoundIn(ParentMessages(rows)) && 0 <= c < |ms| && x in ms[c]
  }

  lemma FoundParent(rows: seq<Row>, x: string) returns (i: nat)
    requires x in FoundIn(ParentMessages(rows))
    ensures i < |Visible(rows)| && x == ObjectString(Visible(rows)[i].user.obj)
  {
    var right := ParentMessages(rows);
    i :| 0 <= i < |right| && right[i].Found? && right[i].obj == x;
  }

  lemma ParentFound(rows: seq<Row>, i: nat)
    requires i < |Visible(rows)|
    ensures ObjectString(Visible(rows)[i].user.obj) in FoundIn(ParentMessages(rows))
  {
    var right := ParentMessages(rows);
    assert right[i] == Found(ObjectString(Visible(rows)[i].user.obj));
  }

  /** Type names contain no `:`. */
  ghost predicate TypesOk(w: World) {
    forall k :: k in w.relations ==> ':' !in k.0
  }

  /** A parent found on both sides is a member for its own type. */
  lemma SharedParent(w: World, g: Goal, computed: string, sides: map<string, Side>, parent: Object, typ: string,
                     m: multiset<string>)
    requires TypesOk(w) && TypeStreamed(w, g, computed, sides, typ, m) && ObjectString(parent) in m
    requires ':' !in parent.typ
    ensures ParentMember(w, g.user, computed, sides, parent)
  {
    var sc := sides[typ].scope;
    var o := MemberTyped(sc, computed, RewriteOf(sc, computed), ObjectString(parent));
    assert ':' !in (typ, computed).0;
    ObjectStringParts(o, parent);
  }

  /** The tupleset's types, as far as they define the relation, are the streamed ones. */
  ghost predicate AllStreamed(w: World, g: Goal, tupleset: string, computed: string, sides: map<string, Side>,
                              ms: seq<multiset<string>>, types: seq<string>) {
    && TypesOk(w) && (forall t :: t in w.types ==> ':' !in t)
    && ParentsOk(w, g, tupleset, computed, sides) && TypesStreamed(w, g, computed, sides, types, ms)
    && (forall r :: r in w.relations[(g.obj.typ, tupleset)].restrictions && (r.typ, computed) in w.relations ==>
         r.typ in types)
  }

  lemma SharedMeansMember(w: World, g: Goal, tupleset: string, computed: string, sides: map<string, Side>,
                          ms: seq<multiset<string>>, types: seq<string>, x: string, c: nat)
    requires AllStreamed(w, g, tupleset, computed, sides, ms, types)
    requires x in FoundIn(ParentMessages(w.Rows(g.obj, tupleset))) && c < |ms| && x in ms[c]
    ensures SomeParentMember(w, g, Visible(w.Rows(g.obj, tupleset)), computed, sides)
  {
    var visible := Visible(w.Rows(g.obj, tupleset));
    var i := FoundParent(w.Rows(g.obj, tupleset), x);
    ParentTyped(w, g, tupleset, computed, sides, visible[i]);
    SharedParent(w, g, computed, sides, visible[i].user.obj, types[c], ms[c]);
  }

  lemma MemberMeansShared(w: World, g: Goal, tupleset: string, computed: string, sides: map<string, Side>,
                          ms: seq<multiset<string>>, types: seq<string>)
    requires AllStreamed(w, g, tupleset, computed, sides, ms, types)
    requires SomeParentMember(w, g, Visible(w.Rows(g.obj, tupleset)), computed, sides)
    ensures Matched(w.Rows(g.obj, tupleset), ms)
  {
    var rows := w.Rows(g.obj, tupleset);
    var visible := Visible(rows);
    var i :| 0 <= i < |visible| && ParentMember(w, g.user, computed, sides, visible[i].user.obj);
    var p := visible[i].user.obj;
    ParentTyped(w, g, tupleset, computed, sides, visible[i]);
    assert Direct(p.typ).typ in types;
    var c :| 0 <= c < |types| && types[c] == p.typ;
    assert TypeStreamed(w, g, computed, sides, types[c], ms[c]);
    assert ObjectString(p) in ms[c];
    ParentFound(rows, i);
  }

  /** The slow path answers nothing but whether some parent is streamed. */
  lemma ParentsAnswer(w: World, g: Goal, tupleset: string, computed: string, sides: map<string, Side>)
    requires ParentsOk(w, g, tupleset, computed, sides) && SidesComplete(sides)
    ensures var rows := w.Rows(g.obj, tupleset);
      SlowAnswers(w, ParentTargets(w, Visible(rows), computed, g.user), EndsInError(rows),
        SomeParentMember(w, g, Visible(rows), computed, sides))
  {
    var rows := w.Rows(g.obj, tupleset);
    var targets, member := ParentTargets(w, Visible(rows), computed, g.user),
      SomeParentMember(w, g, Visible(rows), computed, sides);
    forall n: nat, b | TargetsDerive(w, n, targets, EndsInError(rows), b) ensures b == member {
      ParentsDerive(w, g, tupleset, computed, sides, n, b);
    }
    DerivedIsAnswered(w, targets, EndsInError(rows), member);
  }

  /** Without exclusion, some parent is in the least fixpoint exactly if some parent is streamed. */
  lemma ParentsInLfp(w: World, g: Goal, tupleset: string, computed: string, sides: map<string, Side>)
    requires ExclusionFree(w) && ParentsOk(w, g, tupleset, computed, sides) && SidesComplete(sides)
    ensures var visible := Visible(w.Rows(g.obj, tupleset));
      SomeIn(ParentTargets(w, visible, computed, g.user), Lfp(w)) <==> SomeParentMember(w, g, visible, computed, sides)
  {
    var visible := Visible(w.Rows(g.obj, tupleset));
    var targets := ParentTargets(w, visible, computed, g.user);
    forall k | 0 <= k < |targets|
      ensures targets[k] in Lfp(w) <==> ParentMember(w, g.user, computed, sides, targets[k].obj)
      ensures targets[k] in Lfp(w) ==> SomeParentMember(w, g, visible, computed, sides)
    {
      assert targets[k] in targets;
      var i :| 0 <= i < |visible| && targets[k] == Goal(visible[i].user.obj, computed, g.user) &&
        !SkipsParent(w, visible[i].user.obj.typ, computed);
      ParentTyped(w, g, tupleset, computed, sides, visible[i]);
      GoalInLfp(sides[targets[k].obj.typ].scope, computed, targets[k].obj);
    }
    if SomeParentMember(w, g, visible, computed, sides) { MemberDispatched(w, g, visible, computed, sides); }
  }

  /**
   * checkTTUFastPathV2: an answer without an error says whether some parent is streamed, whatever the
   * leaf reads list; an error is only given if a read fails. If the leaf reads list all directly related
   * objects, any unflagged answer of the slow path, which dispatches a check per parent, is the same, and
   * without exclusion it is what the least fixpoint says.
   */
  method CheckTTUFastPathV2(w: World, g: Goal, tupleset: string, computed: string, sides: map<string, Side>,
                            pick: nat -> nat, leftFirst: nat -> bool)
    returns (a: Answer)
    requires ParentsOk(w, g, tupleset, computed, sides) && TypesOk(w) && (forall t :: t in w.types ==> ':' !in t)
    ensures a.allowed ==> !a.err
    ensures !a.err ==> (a.allowed <==> SomeParentMember(w, g, Visible(w.Rows(g.obj, tupleset)), computed, sides))
    ensures !a.err && SidesComplete(sides) ==> var rows := w.Rows(g.obj, tupleset);
      SlowAnswers(w, ParentTargets(w, Visible(rows), computed, g.user), EndsInError(rows), a.allowed)
    ensures !a.err && SidesComplete(sides) && ExclusionFree(w) ==>
      (a.allowed <==> SomeIn(ParentTargets(w, Visible(w.Rows(g.obj, tupleset)), computed, g.user), Lfp(w)))
    ensures
      && SidesHealthy(w, w.relations[(g.obj.typ, tupleset)].restrictions, computed, sides)
      && !EndsInError(w.Rows(g.obj, tupleset))
      ==> !a.err
  {
    var restrictions := w.relations[(g.obj.typ, tupleset)].restrictions;
    var channels;
    ghost var ms, types;
    channels, ms, types := ParentChannels(w, g, restrictions, computed, sides);
    if channels.None? { return Answer(false, true); }
    if SidesComplete(sides) { ParentsAnswer(w, g, tupleset, computed, sides); }
    if SidesComplete(sides) && ExclusionFree(w) { ParentsInLfp(w, g, tupleset, computed, sides); }
    MatchedParents(w, g, tupleset, computed, sides, ms, types);
    if |channels.value| == 0 { return Answer(false, false); }
    a := MatchSides(channels.value, ms, ParentMessages(w.Rows(g.obj, tupleset)), pick, leftFirst);
  }

  /** The two sides share an object exactly if some parent is streamed. */
  lemma MatchedParents(w: World, g: Goal, tupleset: string, computed: string, sides: map<string, Side>,
                       ms: seq<multiset<string>>, types: seq<string>)
    requires AllStreamed(w, g, tupleset, computed, sides, ms, types)
    ensures Matched(w.Rows(g.obj, tupleset), ms) <==>
      SomeParentMember(w, g, Visible(w.Rows(g.obj, tupleset)), computed, sides)
  {
    var rows := w.Rows(g.obj, tupleset);
    if Matched(rows, ms) {
      var x, c :| x in FoundIn(ParentMessages(rows)) && 0 <= c < |ms| && x in ms[c];
      SharedMeansMember(w, g, tupleset, computed, sides, ms, types, x, c);
    }
    if SomeParentMember(w, g, Visible(rows), computed, sides) {
      MemberMeansShared(w, g, tupleset, computed, sides, ms, types);
    }
  }
}
