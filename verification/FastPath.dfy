/**
 * The fast path over a rewrite tree: instead of evaluating the rewrite object by object, it streams the
 * objects of one type on which the rewrite holds for a user.
 */
module FastPath {
  import opened Options
  import opened Multisets
  import opened IteratorStreams
  import opened StreamLemmas
  import opened Merges
  import opened SetMeaning
  import opened Model

  /** The textual form of an object, by which streams are ordered. */
  function ObjectString(o: Object): string {
    o.typ + ":" + o.id
  }

  // ------------------------------------------------------------ the objects a fast path stands for

  /** A tuple that relates the user, or everyone of the user's type where the relation allows it. */
  predicate RowMatches(rel: Relation, user: User, row: Row) {
    row.cond.Met? && (row.user == user || (PubliclyAssignable(rel, user) && row.user == WildcardOf(user.obj.typ)))
  }

  /** fastPathDirect: the objects of the type that the user is directly related to. */
  ghost function DirectObjects(w: World, user: User, typ: string, relation: string): set<string> {
    set k | k in w.rows.Keys && k.0.typ == typ && k.1 == relation &&
      HasMatch(w, user, k.0, relation) :: ObjectString(k.0)
  }

  ghost predicate HasMatch(w: World, user: User, o: Object, relation: string) {
    (o.typ, relation) in w.relations &&
    exists i :: 0 <= i < |w.Rows(o, relation)| &&
      RowMatches(w.relations[(o.typ, relation)], user, w.Rows(o, relation)[i])
  }

  /** The computed relations of a type can be ranked: no relation refers to itself through computed usersets. */
  ghost predicate Ranked(w: World, typ: string, rank: map<string, nat>) {
    forall r :: (typ, r) in w.relations ==>
      r in rank && RefersBelow(w, typ, rank, w.relations[(typ, r)].rewrite, rank[r])
  }

  ghost predicate RefersBelow(w: World, typ: string, rank: map<string, nat>, rw: Rewrite, bound: nat) {
    match rw
    case This => true
    case TupleToUserset(_, _) => true
    case Computed(c) => (typ, c) in w.relations ==> c in rank && rank[c] < bound
    case Union(children) => forall i :: 0 <= i < |children| ==> RefersBelow(w, typ, rank, children[i], bound)
    case Intersection(children) => forall i :: 0 <= i < |children| ==> RefersBelow(w, typ, rank, children[i], bound)
    case Difference(base, subtract) =>
      RefersBelow(w, typ, rank, base, bound) && RefersBelow(w, typ, rank, subtract, bound)
  }

  /**
   * Where a rewrite is evaluated: the world, the user, the object type, the ranking of its relations,
   * and the objects that the leaf read of each relation lists, be they all directly related ones or not.
   */
  datatype Scope = Scope(w: World, user: User, typ: string, rank: map<string, nat>, lists: map<string, set<string>>) {
    function Listed(r: string): set<string> {
      if r in lists then lists[r] else {}
    }
  }

  /** The leaf reads list exactly the objects the user is directly related to. */
  ghost predicate ListsAll(sc: Scope) {
    forall r :: sc.Listed(r) == DirectObjects(sc.w, sc.user, sc.typ, r)
  }

  /** What is listed are objects of the type. */
  ghost predicate ListsTyped(sc: Scope) {
    forall r, x :: x in sc.Listed(r) ==> exists o: Object :: o.typ == sc.typ && x == ObjectString(o)
  }

  lemma AllTyped(sc: Scope)
    requires ListsAll(sc)
    ensures ListsTyped(sc)
  {
    forall r, x | x in sc.Listed(r) ensures exists o: Object :: o.typ == sc.typ && x == ObjectString(o) {
      assert x in DirectObjects(sc.w, sc.user, sc.typ, r);
    }
  }

  ghost predicate InScope(sc: Scope, relation: string, rw: Rewrite) {
    relation in sc.rank && Ranked(sc.w, sc.typ, sc.rank) && RefersBelow(sc.w, sc.typ, sc.rank, rw, sc.rank[relation])
  }

  /** The object `x` belongs to what the fast path computes for the rewrite from what the leaf reads list. */
  ghost predicate Member(sc: Scope, relation: string, rw: Rewrite, x: string)
    requires InScope(sc, relation, rw)
    decreases sc.rank[relation], rw
  {
    match rw
    case This => x in sc.Listed(relation)
    case TupleToUserset(_, _) => false
    case Computed(c) => (sc.typ, c) in sc.w.relations && Member(sc, c, sc.w.relations[(sc.typ, c)].rewrite, x)
    case Union(children) => exists i :: 0 <= i < |children| && Member(sc, relation, children[i], x)
    case Intersection(children) => forall i :: 0 <= i < |children| ==> Member(sc, relation, children[i], x)
    case Difference(base, subtract) => Member(sc, relation, base, x) && !Member(sc, relation, subtract, x)
  }

  /** Set operators have at least one operand, and computed relations are defined. */
  ghost predicate WellFormed(sc: Scope, rw: Rewrite) {
    match rw
    case Union(children) => forall i :: 0 <= i < |children| ==> WellFormed(sc, children[i])
    case Intersection(children) => children != [] && forall i :: 0 <= i < |children| ==> WellFormed(sc, children[i])
    case Difference(base, subtract) => WellFormed(sc, base) && WellFormed(sc, subtract)
    case This => true
    case Computed(_) => true
    case TupleToUserset(_, _) => true
  }

  /** A repetition-free multiset of exactly the members. */
  ghost predicate Represents(m: multiset<string>, sc: Scope, relation: string, rw: Rewrite)
    requires InScope(sc, relation, rw)
  {
    Simple(m) && forall x :: x in m <==> Member(sc, relation, rw, x)
  }

  /** Each operand's multiset represents the operand. */
  ghost predicate RepresentsEach(ms: seq<multiset<string>>, sc: Scope, relation: string, children: seq<Rewrite>) {
    && |ms| == |children|
    && forall i :: 0 <= i < |children| ==>
         InScope(sc, relation, children[i]) && Represents(ms[i], sc, relation, children[i])
  }

  lemma UnionRepresents(ms: seq<multiset<string>>, sc: Scope, relation: string, children: seq<Rewrite>)
    requires InScope(sc, relation, Union(children)) && RepresentsEach(ms, sc, relation, children)
    ensures Represents(JoinAll(ms), sc, relation, Union(children))
  {
    JoinSupport(ms);
    forall x ensures x in JoinAll(ms) <==>
      Member(sc, relation, Union(children), x) { UnionMember(ms, sc, relation, children, x); }
  }

  lemma UnionMember(ms: seq<multiset<string>>, sc: Scope, relation: string, children: seq<Rewrite>, x: string)
    requires InScope(sc, relation, Union(children)) && RepresentsEach(ms, sc, relation, children)
    ensures (exists i :: 0 <= i < |ms| && x in ms[i]) <==> Member(sc, relation, Union(children), x)
  {
    forall i | 0 <= i < |ms| ensures x in ms[i] <==> Member(sc, relation, children[i], x) {}
  }

  lemma IntersectionRepresents(ms: seq<multiset<string>>, sc: Scope, relation: string, children: seq<Rewrite>)
    requires InScope(sc, relation, Intersection(children)) && RepresentsEach(ms, sc, relation, children)
    requires children != []
    ensures Represents(MeetAll(ms), sc, relation, Intersection(children))
  {
    MeetSupport(ms);
    forall x ensures x in MeetAll(ms) <==> Member(sc, relation, Intersection(children), x) {
      if x in MeetAll(ms) {
        forall i | 0 <= i < |children| ensures Member(sc, relation, children[i], x) { assert x in ms[i]; }
      }
      if Member(sc, relation, Intersection(children), x) {
        forall i | 0 <= i < |ms| ensures x in ms[i] { assert Member(sc, relation, children[i], x); }
      }
    }
  }

  // ------------------------------------------------------------ the channels

  /** A leaf read per relation of the type; a relation without one is a read that failed. */
  ghost predicate LeavesOk(sc: Scope, leaves: map<string, seq<Msg>>) {
    forall r :: r in leaves ==> LeafOk(sc, r, leaves[r])
  }

  /** A leaf read delivers what it lists in order. */
  ghost predicate LeafOk(sc: Scope, r: string, ch: seq<Msg>) {
    Enumerates(Items(ch), Faulty(ch), multiset(sc.Listed(r)))
  }

  /** All reads the rewrite needs could be started: its computed relations are defined and no leaf read failed. */
  ghost predicate Starts(sc: Scope, relation: string, rw: Rewrite, leaves: map<string, seq<Msg>>)
    requires InScope(sc, relation, rw)
    decreases sc.rank[relation], rw
  {
    match rw
    case This => relation in leaves
    case TupleToUserset(_, _) => true
    case Computed(c) => (sc.typ, c) in sc.w.relations && Starts(sc, c, sc.w.relations[(sc.typ, c)].rewrite, leaves)
    case Union(children) => forall i :: 0 <= i < |children| ==> Starts(sc, relation, children[i], leaves)
    case Intersection(children) => forall i :: 0 <= i < |children| ==> Starts(sc, relation, children[i], leaves)
    case Difference(base, subtract) => Starts(sc, relation, base, leaves) && Starts(sc, relation, subtract, leaves)
  }

  /** Some leaf read of the type ends in an error. */
  ghost predicate SomeLeafFaulty(leaves: map<string, seq<Msg>>) {
    exists r :: r in leaves && Faulty(leaves[r])
  }

  /** Fresh streams over the given channels. */
  method NewStreams(channels: seq<seq<Msg>>) returns (ss: Streams)
    ensures fresh(ss) && fresh(ss.all) && ss.Valid()
    ensures |ss.streams| == |channels|
    ensures forall i :: 0 <= i < |channels| ==> ss.Views()[i] == View(i, None, false, channels[i])
  {
    var streams: seq<Stream> := [];
    for i := 0 to |channels|
      invariant |streams| == i
      invariant forall j :: 0 <= j < i ==> fresh(streams[j]) && streams[j].State() == View(j, None, false, channels[j])
      invariant forall j, k :: 0 <= j < k < i ==> streams[j] != streams[k]
    {
      var s := new Stream(i, channels[i]);
      streams := streams + [s];
    }
    ss := new Streams(streams);
  }

  lemma FreshTracks(i: nat, ch: seq<Msg>, m: multiset<string>)
    requires Enumerates(Items(ch), Faulty(ch), m)
    ensures TracksOne(View(i, None, false, ch), m)
    ensures View(i, None, false, ch).Cracked() <==> Faulty(ch)
  {
    assert View(i, None, false, ch).Remaining() == Items(ch);
  }

  /** Each channel enumerates its multiset. */
  ghost predicate ChannelsOk(channels: seq<seq<Msg>>, ms: seq<multiset<string>>) {
    && |channels| == |ms|
    && forall i :: 0 <= i < |channels| ==> Enumerates(Items(channels[i]), Faulty(channels[i]), ms[i])
  }

  lemma ChannelsSnoc(channels: seq<seq<Msg>>, ms: seq<multiset<string>>, ch: seq<Msg>, m: multiset<string>)
    requires ChannelsOk(channels, ms) && Enumerates(Items(ch), Faulty(ch), m)
    ensures ChannelsOk(channels + [ch], ms + [m])
  {
  }

  lemma FreshTracksAll(vs: seq<View>, channels: seq<seq<Msg>>, ms: seq<multiset<string>>, leafFault: bool)
    requires ChannelsOk(channels, ms) && |vs| == |channels|
    requires forall i :: 0 <= i < |channels| ==> vs[i] == View(i, None, false, channels[i])
    requires forall i :: 0 <= i < |channels| ==> Faulty(channels[i]) ==> leafFault
    ensures Tracks(vs, ms)
    ensures SomeCracked(vs) ==> leafFault
  {
    forall i | 0 <= i < |vs|
      ensures TracksOne(vs[i], ms[i]) && (vs[i].Cracked() ==> leafFault)
    {
      FreshTracks(i, channels[i], ms[i]);
    }
  }

  /**
   * fastPathRewrite: the channel streams, in strictly ascending order, exactly the members of the rewrite;
   * only a fault of a leaf read can cut it short.
   */
  method FastPathRewrite(sc: Scope, relation: string, rw: Rewrite, leaves: map<string, seq<Msg>>)
    returns (out: Option<seq<Msg>>, ghost m: multiset<string>)
    requires InScope(sc, relation, rw) && WellFormedAll(sc) && WellFormed(sc, rw) && LeavesOk(sc, leaves)
    ensures out.Some? <==> Starts(sc, relation, rw, leaves)
    ensures out.Some? ==> Represents(m, sc, relation, rw) && Enumerates(Items(out.value), Faulty(out.value), m)
    ensures out.Some? && Faulty(out.value) ==> SomeLeafFaulty(leaves)
    decreases sc.rank[relation], rw
  {
    m := multiset{};
    match rw
    case This =>
      if relation !in leaves { return None, m; }
      m := multiset(sc.Listed(relation));
      return Some(leaves[relation]), m;
    case TupleToUserset(_, _) =>
      return Some([]), m;
    case Computed(c) =>
      if (sc.typ, c) !in sc.w.relations { return None, m; }
      out, m := FastPathRewrite(sc, c, sc.w.relations[(sc.typ, c)].rewrite, leaves);
    case Union(_) => out, m := FastUnion(sc, relation, rw, leaves);
    case Intersection(_) => out, m := FastIntersection(sc, relation, rw, leaves);
    case Difference(_, _) => out, m := FastDifference(sc, relation, rw, leaves);
  }

  /** fastPathOperationSetup with the union merge. */
  method FastUnion(sc: Scope, relation: string, rw: Rewrite, leaves: map<string, seq<Msg>>)
    returns (out: Option<seq<Msg>>, ghost m: multiset<string>)
    requires rw.Union? && InScope(sc, relation, rw) && WellFormedAll(sc) && WellFormed(sc, rw) && LeavesOk(sc, leaves)
    ensures out.Some? <==> Starts(sc, relation, rw, leaves)
    ensures out.Some? ==> Represents(m, sc, relation, rw) && Enumerates(Items(out.value), Faulty(out.value), m)
    ensures out.Some? && Faulty(out.value) ==> SomeLeafFaulty(leaves)
    decreases sc.rank[relation], rw, 0
  {
    var channels;
    ghost var ms;
    m := multiset{};
    channels, ms := ChildChannels(sc, relation, rw.children, leaves);
    if channels.None? { return None, m; }
    assert rw.children[..|rw.children|] == rw.children;
    UnionRepresents(ms, sc, relation, rw.children);
    var ch := RunUnion(channels.value, ms, SomeLeafFaulty(leaves));
    return Some(ch), JoinAll(ms);
  }

  /** fastPathOperationSetup with the intersection merge. */
  method FastIntersection(sc: Scope, relation: string, rw: Rewrite, leaves: map<string, seq<Msg>>)
    returns (out: Option<seq<Msg>>, ghost m: multiset<string>)
    requires rw.Intersection? && InScope(sc, relation, rw) && WellFormedAll(sc) && WellFormed(sc, rw)
    requires LeavesOk(sc, leaves)
    ensures out.Some? <==> Starts(sc, relation, rw, leaves)
    ensures out.Some? ==> Represents(m, sc, relation, rw) && Enumerates(Items(out.value), Faulty(out.value), m)
    ensures out.Some? && Faulty(out.value) ==> SomeLeafFaulty(leaves)
    decreases sc.rank[relation], rw, 0
  {
    var channels;
    ghost var ms;
    m := multiset{};
    channels, ms := ChildChannels(sc, relation, rw.children, leaves);
    if channels.None? { return None, m; }
    assert rw.children[..|rw.children|] == rw.children;
    IntersectionRepresents(ms, sc, relation, rw.children);
    var ch := RunIntersection(channels.value, ms, SomeLeafFaulty(leaves));
    return Some(ch), MeetAll(ms);
  }

  /** fastPathOperationSetup with the difference merge. */
  method FastDifference(sc: Scope, relation: string, rw: Rewrite, leaves: map<string, seq<Msg>>)
    returns (out: Option<seq<Msg>>, ghost m: multiset<string>)
    requires rw.Difference? && InScope(sc, relation, rw) && WellFormedAll(sc) && WellFormed(sc, rw)
    requires LeavesOk(sc, leaves)
    ensures out.Some? <==> Starts(sc, relation, rw, leaves)
    ensures out.Some? ==> Represents(m, sc, relation, rw) && Enumerates(Items(out.value), Faulty(out.value), m)
    ensures out.Some? && Faulty(out.value) ==> SomeLeafFaulty(leaves)
    decreases sc.rank[relation], rw, 0
  {
    var b, s;
    ghost var mb, md;
    m := multiset{};
    b, mb := FastPathRewrite(sc, relation, rw.base, leaves);
    if b.None? { return None, m; }
    s, md := FastPathRewrite(sc, relation, rw.subtract, leaves);
    if s.None? { return None, m; }
    DifferenceRepresents(mb, md, sc, relation, rw);
    var ch := RunDifference(b.value, s.value, mb, md, SomeLeafFaulty(leaves));
    return Some(ch), mb - md;
  }

  /** Without repetitions, the multiset difference is the set difference. */
  lemma DifferenceRepresents(mb: multiset<string>, md: multiset<string>, sc: Scope, relation: string, rw: Rewrite)
    requires rw.Difference? && InScope(sc, relation, rw)
    requires Represents(mb, sc, relation, rw.base) && Represents(md, sc, relation, rw.subtract)
    ensures Represents(mb - md, sc, relation, rw)
  {
    forall x ensures x in mb - md <==> Member(sc, relation, rw, x) {
      assert mb[x] <= 1;
    }
  }

  ghost predicate WellFormedAll(sc: Scope) {
    forall r :: (sc.typ, r) in sc.w.relations ==> WellFormed(sc, sc.w.relations[(sc.typ, r)].rewrite)
  }

  /** The first operands can be started. */
  ghost predicate AllStart(sc: Scope, relation: string, children: seq<Rewrite>, leaves: map<string, seq<Msg>>, n: nat) {
    n <= |children| && forall i :: 0 <= i < n ==>
      InScope(sc, relation, children[i]) && Starts(sc, relation, children[i], leaves)
  }

  /** A channel is only at fault if a leaf read is. */
  ghost predicate FaultsFrom(channels: seq<seq<Msg>>, leaves: map<string, seq<Msg>>) {
    forall i :: 0 <= i < |channels| ==> Faulty(channels[i]) ==> SomeLeafFaulty(leaves)
  }

  /** What the channels of the first operands are. */
  ghost predicate Opened(sc: Scope, relation: string, children: seq<Rewrite>, leaves: map<string, seq<Msg>>,
                         chs: seq<seq<Msg>>, ms: seq<multiset<string>>) {
    && |chs| <= |children| && ChannelsOk(chs, ms) && RepresentsEach(ms, sc, relation, children[..|chs|])
    && AllStart(sc, relation, children, leaves, |chs|) && FaultsFrom(chs, leaves)
  }

  lemma OpenedSnoc(sc: Scope, relation: string, children: seq<Rewrite>, leaves: map<string, seq<Msg>>,
                   chs: seq<seq<Msg>>, ms: seq<multiset<string>>, ch: seq<Msg>, m: multiset<string>)
    requires Opened(sc, relation, children, leaves, chs, ms) && |chs| < |children|
    requires InScope(sc, relation, children[|chs|])
    requires Starts(sc, relation, children[|chs|], leaves) && Represents(m, sc, relation, children[|chs|])
    requires Enumerates(Items(ch), Faulty(ch), m) && (Faulty(ch) ==> SomeLeafFaulty(leaves))
    ensures Opened(sc, relation, children, leaves, chs + [ch], ms + [m])
  {
    ChannelsSnoc(chs, ms, ch, m);
    RepresentsSnoc(ms, sc, relation, children, |chs|, m);
  }

  /** The channels of all operands, or none if one of them could not be started. */
  method ChildChannels(sc: Scope, relation: string, children: seq<Rewrite>, leaves: map<string, seq<Msg>>)
    returns (channels: Option<seq<seq<Msg>>>, ghost ms: seq<multiset<string>>)
    requires forall i :: 0 <= i < |children| ==> InScope(sc, relation, children[i]) && WellFormed(sc, children[i])
    requires relation in sc.rank && WellFormedAll(sc) && LeavesOk(sc, leaves)
    ensures channels.Some? <==> AllStart(sc, relation, children, leaves, |children|)
    ensures channels.Some? ==>
      |channels.value| == |children| && Opened(sc, relation, children, leaves, channels.value, ms)
    decreases sc.rank[relation], children, 0
  {
    var chs: seq<seq<Msg>> := [];
    ms := [];
    for i := 0 to |children|
      invariant |chs| == i && Opened(sc, relation, children, leaves, chs, ms)
    {
      var ch;
      ghost var m;
      ch, m := FastPathRewrite(sc, relation, children[i], leaves);
      if ch.None? { return None, ms; }
      OpenedSnoc(sc, relation, children, leaves, chs, ms, ch.value, m);
      chs, ms := chs + [ch.value], ms + [m];
    }
    return Some(chs), ms;
  }

  lemma RepresentsSnoc(ms: seq<multiset<string>>, sc: Scope, relation: string, children: seq<Rewrite>, i: nat,
                       m: multiset<string>)
    requires i < |children| && RepresentsEach(ms, sc, relation, children[..i]) && InScope(sc, relation, children[i])
    requires Represents(m, sc, relation, children[i])
    ensures RepresentsEach(ms + [m], sc, relation, children[..i + 1])
  {
    var cs, ns := children[..i + 1], ms + [m];
    forall j | 0 <= j <= i ensures InScope(sc, relation, cs[j]) && Represents(ns[j], sc, relation, cs[j]) {
      if j < i { assert cs[j] == children[..i][j] && ns[j] == ms[j]; }
    }
  }

  method RunUnion(channels: seq<seq<Msg>>, ghost ms: seq<multiset<string>>, ghost leafFault: bool)
    returns (out: seq<Msg>)
    requires ChannelsOk(channels, ms)
    requires forall i :: 0 <= i < |channels| ==> Faulty(channels[i]) ==> leafFault
    ensures Enumerates(Items(out), Faulty(out), JoinAll(ms))
    ensures Faulty(out) ==> leafFault
  {
    var ss := NewStreams(channels);
    FreshTracksAll(ss.Views(), channels, ms, leafFault);
    out := FastPathUnion(ss, ms);
  }

  method RunIntersection(channels: seq<seq<Msg>>, ghost ms: seq<multiset<string>>, ghost leafFault: bool)
    returns (out: seq<Msg>)
    requires ChannelsOk(channels, ms) && ms != []
    requires forall i :: 0 <= i < |channels| ==> Faulty(channels[i]) ==> leafFault
    ensures Enumerates(Items(out), Faulty(out), MeetAll(ms))
    ensures Faulty(out) ==> leafFault
  {
    var ss := NewStreams(channels);
    FreshTracksAll(ss.Views(), channels, ms, leafFault);
    out := FastPathIntersection(ss, ms);
  }

  method RunDifference(base: seq<Msg>, subtract: seq<Msg>, ghost mb: multiset<string>, ghost md: multiset<string>,
                       ghost leafFault: bool)
    returns (out: seq<Msg>)
    requires Enumerates(Items(base), Faulty(base), mb) && Enumerates(Items(subtract), Faulty(subtract), md)
    requires Faulty(base) || Faulty(subtract) ==> leafFault
    ensures Enumerates(Items(out), Faulty(out), mb - md)
    ensures Faulty(out) ==> leafFault
  {
    var ss := NewStreams([base, subtract]);
    ghost var vs := ss.Views();
    FreshTracks(0, base, mb);
    FreshTracks(1, subtract, md);
    assert vs[0] == View(0, None, false, base) && vs[1] == View(1, None, false, subtract);
    SumSizePair(vs);
    assert BothActive(vs, mb, md);
    out := FastPathDifference(ss, mb, md);
  }
}
