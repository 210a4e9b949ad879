/** Where a relation refers to a source or to other relations, by the position in its rewrite. */
module EdgePlaces {
  import opened Options
  import opened Model
  import opened Involves

  datatype EdgeType = DirectEdge | ComputedUsersetEdge | TupleToUsersetEdge

  /** An edge into `target`; flagged if following it requires a further check. */
  datatype Edge = Edge(kind: EdgeType, target: Key, tupleset: string, flagged: bool)

  // ------------------------------------------------------------ positions in a rewrite

  /** The part of a rewrite at a position: which operand to take at each step down. */
  function Part(rw: Rewrite, pos: seq<nat>): Option<Rewrite>
    decreases |pos|
  {
    if pos == [] then Some(rw)
    else if pos[0] < |Operands(rw)| then Part(Operands(rw)[pos[0]], pos[1..])
    else None
  }

  /** Pruning follows every operand of a union, but only the first one of an intersection and only the base. */
  predicate Kept(rw: Rewrite, pos: seq<nat>)
    decreases |pos|
  {
    pos == [] ||
    (pos[0] < |Operands(rw)| && (!rw.Union? ==> pos[0] == 0) && Kept(Operands(rw)[pos[0]], pos[1..]))
  }

  /** The position is inside an intersection or an exclusion. */
  predicate Inside(rw: Rewrite, pos: seq<nat>)
    decreases |pos|
  {
    pos != [] && (!rw.Union? || (pos[0] < |Operands(rw)| && Inside(Operands(rw)[pos[0]], pos[1..])))
  }

  // ------------------------------------------------------------ places and their edges

  /** A position in the rewrite of a relation, and for a tuple-to-userset a type restriction of the tupleset. */
  datatype Place = Place(relation: Key, pos: seq<nat>, index: nat)

  /** The relation named by the source, if it is a userset. */
  function SourceKey(source: Restriction): Key {
    (source.typ, if source.Userset? then source.relation else "")
  }

  /** The restrictions of a tupleset; none if it is not defined. */
  function TuplesetTypes(w: World, typ: string, tupleset: string): seq<Restriction> {
    if (typ, tupleset) in w.relations then w.relations[(typ, tupleset)].restrictions else []
  }

  /** The source occurs at the leaf of a relation of `k`. */
  predicate LeafMatches(w: World, k: Key, leaf: Rewrite, index: nat, source: Restriction)
    requires k in w.relations
  {
    match leaf
    case This =>
      index == 0 && (source in w.relations[k].restrictions || Public(source.typ) in w.relations[k].restrictions)
    case Computed(c) => index == 0 && (k.0, c) == SourceKey(source)
    case TupleToUserset(tupleset, computed) =>
      var rs := TuplesetTypes(w, k.0, tupleset);
      index < |rs| && (rs[index].typ, computed) == SourceKey(source) && SourceKey(source) in w.relations
    case _ => false
  }

  /** The source occurs at the place, and pruning keeps it. */
  predicate Matches(w: World, source: Restriction, p: Place) {
    p.relation in w.relations &&
    var rw := w.relations[p.relation].rewrite;
    Kept(rw, p.pos) && Part(rw, p.pos).Some? && LeafMatches(w, p.relation, Part(rw, p.pos).value, p.index, source)
  }

  /**
   * The edge of a leaf of `k`. It is flagged inside an intersection or exclusion, and if a tuple-to-userset
   * leads to a relation from which either can be reached.
   */
  ghost function LeafEdge(w: World, k: Key, leaf: Rewrite, inside: bool, source: Restriction): Edge {
    match leaf
    case Computed(_) => Edge(ComputedUsersetEdge, k, "", inside)
    case TupleToUserset(tupleset, _) =>
      Edge(TupleToUsersetEdge, k, tupleset, inside || OperatorAhead(w, SourceKey(source), BOTH))
    case _ => Edge(DirectEdge, k, "", inside)
  }

  ghost function EdgeAt(w: World, source: Restriction, p: Place): Edge
    requires Matches(w, source, p)
  {
    var rw := w.relations[p.relation].rewrite;
    LeafEdge(w, p.relation, Part(rw, p.pos).value, Inside(rw, p.pos), source)
  }

  // ------------------------------------------------------------ references and pruned paths

  /** The leaf of a relation of `k` refers to `c`. */
  predicate LeafRefers(w: World, k: Key, leaf: Rewrite, c: Key)
    requires k in w.relations
  {
    match leaf
    case This => Userset(c.0, c.1) in w.relations[k].restrictions
    case Computed(r) => c == (k.0, r)
    case TupleToUserset(tupleset, computed) =>
      c.1 == computed && exists r :: r in TuplesetTypes(w, k.0, tupleset) && r.typ == c.0
    case _ => false
  }

  /** Some position kept by pruning refers to `c`; `inside` says whether it is inside an operator. */
  ghost predicate RefersAt(w: World, k: Key, rw: Rewrite, pos: seq<nat>, c: Key, inside: bool)
    requires k in w.relations
  {
    Kept(rw, pos) && Part(rw, pos).Some? && inside == Inside(rw, pos) && LeafRefers(w, k, Part(rw, pos).value, c)
  }

  ghost predicate RefersInside(w: World, k: Key, rw: Rewrite, c: Key, inside: bool)
    requires k in w.relations
  {
    exists pos :: RefersAt(w, k, rw, pos, c, inside)
  }

  /** `a` refers to the relation `c` in its pruned rewrite. */
  ghost predicate PrunedRef(w: World, a: Key, c: Key, inside: bool) {
    a in w.relations && c in w.relations && RefersInside(w, a, w.relations[a].rewrite, c, inside)
  }

  /** A pruned path of `n` references from `a` to `b`; `f` says whether one of them is inside an operator. */
  ghost predicate PathIn(w: World, a: Key, b: Key, f: bool, n: nat)
    decreases n
  {
    if n == 0 then a == b && !f
    else
      exists c, r ::
        && PrunedRef(w, a, c, r)
        && ((f && PathIn(w, c, b, true, n - 1)) || (f == r && PathIn(w, c, b, false, n - 1)))
  }

  ghost predicate Path(w: World, a: Key, b: Key, f: bool) {
    exists n: nat :: PathIn(w, a, b, f, n)
  }

  ghost predicate OnPath(w: World, a: Key, b: Key) {
    Path(w, a, b, true) || Path(w, a, b, false)
  }

  lemma PathCons(w: World, a: Key, c: Key, r: bool, b: Key, f: bool)
    requires PrunedRef(w, a, c, r) && Path(w, c, b, f)
    ensures Path(w, a, b, r || f)
  {
    var n: nat :| PathIn(w, c, b, f, n);
    assert PathIn(w, a, b, r || f, n + 1);
  }

  lemma PathSelf(w: World, a: Key)
    ensures Path(w, a, a, false)
  {
    assert PathIn(w, a, a, false, 0);
  }

  /** The first reference of a path, and the path behind it. */
  lemma PathStep(w: World, a: Key, b: Key, f: bool, n: nat) returns (c: Key, r: bool, f': bool)
    requires n > 0 && PathIn(w, a, b, f, n)
    ensures PrunedRef(w, a, c, r) && PathIn(w, c, b, f', n - 1)
  {
    c, r :| PrunedRef(w, a, c, r) && ((f && PathIn(w, c, b, true, n - 1)) || (f == r && PathIn(w, c, b, false, n - 1)));
    f' := f && PathIn(w, c, b, true, n - 1);
  }

  /** A path may be extended by a reference. */
  lemma {:induction false} PathSnoc(w: World, a: Key, b: Key, f: bool, n: nat, c: Key, r: bool)
    requires PathIn(w, a, b, f, n) && PrunedRef(w, b, c, r)
    ensures OnPath(w, a, c)
    decreases n
  {
    PathSelf(w, c);
    if n == 0 {
      PathCons(w, a, c, r, c, false);
    } else {
      var d, s, f' := PathStep(w, a, b, f, n);
      PathSnoc(w, d, b, f', n - 1, c, r);
      if Path(w, d, c, true) { PathCons(w, a, d, s, c, true); } else { PathCons(w, a, d, s, c, false); }
    }
  }

  // ------------------------------------------------------------ what is reported

  /** The edge is that of a matching place at the end of a pruned path, flagged if the path or the place is. */
  ghost predicate Reported(w: World, k: Key, source: Restriction, e: Edge) {
    exists p, f :: Matches(w, source, p) && Path(w, k, p.relation, f) &&
      e == EdgeAt(w, source, p).(flagged := f || EdgeAt(w, source, p).flagged)
  }

  /** The edges of the places. */
  ghost function EdgesAt(w: World, source: Restriction, places: seq<Place>): (r: seq<Edge>)
    requires forall i :: 0 <= i < |places| ==> Matches(w, source, places[i])
    ensures |r| == |places| && forall i :: 0 <= i < |r| ==> r[i] == EdgeAt(w, source, places[i])
  {
    seq(|places|, i requires 0 <= i < |places| => EdgeAt(w, source, places[i]))
  }

  /** The places list every matching place of every relation on a pruned path exactly once. */
  ghost predicate EveryPlaceOnce(w: World, k: Key, source: Restriction, places: seq<Place>) {
    && (forall i :: 0 <= i < |places| ==> Matches(w, source, places[i]))
    && (forall i, j :: 0 <= i < j < |places| ==> places[i] != places[j])
    && (forall p :: p in places <==> Matches(w, source, p) && OnPath(w, k, p.relation))
  }
}
