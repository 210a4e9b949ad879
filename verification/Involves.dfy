/** Does a relation involve intersection or exclusion, directly or through the relations it refers to? */
module Involves {
  import opened Options
  import opened Model

  type Key = (string, string)

  datatype SetOperator = And | ButNot

  // ------------------------------------------------------------ references and valid models

  /** The relations a tuple-to-userset leads to: `computed` on every type of the tupleset that defines it. */
  function ParentKeys(w: World, restrictions: seq<Restriction>, computed: string): (r: seq<Key>)
    ensures forall k :: k in r <==>
      k in w.relations && k.1 == computed && exists i :: 0 <= i < |restrictions| && restrictions[i].typ == k.0
  {
    if restrictions == [] then []
    else (if (restrictions[0].typ, computed) in w.relations then [(restrictions[0].typ, computed)]
      else []) + ParentKeys(w, restrictions[1..], computed)
  }

  /** The relations a rewrite of a type refers to. */
  predicate RefersTo(w: World, typ: string, rw: Rewrite, k: Key) {
    match rw
    case This => false
    case Computed(c) => k == (typ, c)
    case TupleToUserset(tupleset, computed) =>
      (typ, tupleset) in w.relations && k in ParentKeys(w, w.relations[(typ, tupleset)].restrictions, computed)
    case Union(children) => exists i :: 0 <= i < |children| && RefersTo(w, typ, children[i], k)
    case Intersection(children) => exists i :: 0 <= i < |children| && RefersTo(w, typ, children[i], k)
    case Difference(base, subtract) => RefersTo(w, typ, base, k) || RefersTo(w, typ, subtract, k)
  }

  predicate Follows(w: World, a: Key, b: Key) {
    a in w.relations && (RefersTo(w, a.0, w.relations[a].rewrite, b) || b in UsersetKeys(w.relations[a].restrictions))
  }

  ghost predicate FollowsIn(w: World, a: Key, b: Key, n: nat)
    decreases n
  {
    if n == 0 then a == b else exists c :: Follows(w, a, c) && FollowsIn(w, c, b, n - 1)
  }

  /** `b` is reachable from `a` through computed, tuple-to-userset and userset references. */
  ghost predicate Reachable(w: World, a: Key, b: Key) {
    exists n: nat :: FollowsIn(w, a, b, n)
  }

  predicate Contains(rw: Rewrite, op: SetOperator) {
    match rw
    case Union(children) => exists i :: 0 <= i < |children| && Contains(children[i], op)
    case Intersection(children) => op == And || exists i :: 0 <= i < |children| && Contains(children[i], op)
    case Difference(base, subtract) => op == ButNot || Contains(base, op) || Contains(subtract, op)
    case _ => false
  }

  /** Some reachable relation contains one of the operators. */
  ghost predicate OperatorAhead(w: World, a: Key, ops: set<SetOperator>) {
    exists b, op :: Reachable(w, a, b) && b in w.relations && op in ops && Contains(w.relations[b].rewrite, op)
  }

  /** A valid model: every reference is to a defined relation, and tuplesets admit no usersets. */
  predicate RefsDefined(w: World, typ: string, rw: Rewrite) {
    match rw
    case This => true
    case Computed(c) => (typ, c) in w.relations
    case TupleToUserset(tupleset, _) =>
      (typ, tupleset) in w.relations && UsersetKeys(w.relations[(typ, tupleset)].restrictions) == []
    case Union(children) => forall i :: 0 <= i < |children| ==> RefsDefined(w, typ, children[i])
    case Intersection(children) => forall i :: 0 <= i < |children| ==> RefsDefined(w, typ, children[i])
    case Difference(base, subtract) => RefsDefined(w, typ, base) && RefsDefined(w, typ, subtract)
  }

  ghost predicate ValidModel(w: World) {
    forall k :: k in w.relations ==>
      RefsDefined(w, k.0, w.relations[k].rewrite) && forall b :: b in UsersetKeys(w.relations[k].restrictions) ==>
        b in w.relations
  }

  // ------------------------------------------------------------ the search, as a specification

  /** What searching a relation returns: whether a target was met, and the marks so far. */
  datatype Found = Found(hit: bool, visited: set<Key>)

  /** What walking a rewrite returns: nothing (proceed) or a verdict, and the marks so far. */
  datatype Walked = Walked(stop: Option<bool>, visited: set<Key>)

  ghost function Left(w: World, visited: set<Key>): nat {
    |w.relations.Keys - visited|
  }

  lemma LeftShrinks(w: World, v: set<Key>, v': set<Key>)
    requires v <= v'
    ensures Left(w, v') <= Left(w, v)
  {
    var a, b := w.relations.Keys - v', w.relations.Keys - v;
    assert a <= b && b == a + (b - a) && |b| == |a| + |b - a|;
  }

  lemma LeftDrops(w: World, v: set<Key>, k: Key)
    requires k in w.relations && k !in v
    ensures Left(w, v + {k}) < Left(w, v)
  {
    assert w.relations.Keys - v == (w.relations.Keys - (v + {k})) + {k};
  }

  /** relationInvolves, with a set of target operators. */
  ghost function Search(w: World, k: Key, visited: set<Key>, targets: set<SetOperator>): (f: Found)
    requires ValidModel(w) && k in w.relations
    ensures visited <= f.visited && (!f.hit ==> k in f.visited)
    decreases Left(w, visited), 0
  {
    if k in visited then Found(false, visited)
    else
      LeftDrops(w, visited, k);
      var walk := Walk(w, k.0, w.relations[k].rewrite, visited + {k}, targets);
      if walk.stop == Some(true) then Found(true, walk.visited)
      else
        LeftShrinks(w, visited + {k}, walk.visited);
        SearchAll(w, UsersetKeys(w.relations[k].restrictions), walk.visited, targets)
  }

  ghost function SearchAll(w: World, keys: seq<Key>, visited: set<Key>, targets: set<SetOperator>): (f: Found)
    requires ValidModel(w) && forall k :: k in keys ==> k in w.relations
    ensures visited <= f.visited && (!f.hit ==> forall k :: k in keys ==> k in f.visited)
    decreases Left(w, visited), 1, |keys|
  {
    if keys == [] then Found(false, visited)
    else
      var f := Search(w, keys[0], visited, targets);
      if f.hit then f
      else
        LeftShrinks(w, visited, f.visited);
        SearchAll(w, keys[1..], f.visited, targets)
  }

  /** The walk stops at the first operator, with the verdict whether it is a target. */
  ghost function Walk(w: World, typ: string, rw: Rewrite, visited: set<Key>, targets: set<SetOperator>): (r: Walked)
    requires ValidModel(w) && RefsDefined(w, typ, rw)
    ensures visited <= r.visited
    decreases Left(w, visited), 2, rw
  {
    match rw
    case This => Walked(None, visited)
    case Computed(c) => Proceed(Search(w, (typ, c), visited, targets))
    case TupleToUserset(tupleset, computed) =>
      Proceed(SearchAll(w, ParentKeys(w, w.relations[(typ, tupleset)].restrictions, computed), visited, targets))
    case Union(children) => WalkAll(w, typ, children, visited, targets)
    case Intersection(_) => Walked(Some(And in targets), visited)
    case Difference(_, _) => Walked(Some(ButNot in targets), visited)
  }

  function Proceed(f: Found): Walked {
    Walked(if f.hit then Some(true) else None, f.visited)
  }

  ghost function WalkAll(w: World, typ: string, children: seq<Rewrite>, visited: set<Key>,
                         targets: set<SetOperator>): (r: Walked)
    requires ValidModel(w) && forall i :: 0 <= i < |children| ==> RefsDefined(w, typ, children[i])
    ensures visited <= r.visited
    decreases Left(w, visited), 2, children
  {
    if children == [] then Walked(None, visited)
    else
      var r := Walk(w, typ, children[0], visited, targets);
      if r.stop.Some? then r
      else
        LeftShrinks(w, visited, r.visited);
        WalkAll(w, typ, children[1..], r.visited, targets)
  }

  // ------------------------------------------------------------ a hit is real

  lemma AheadCons(w: World, a: Key, b: Key, ops: set<SetOperator>)
    requires Follows(w, a, b) && OperatorAhead(w, b, ops)
    ensures OperatorAhead(w, a, ops)
  {
    var c, op :| Reachable(w, b, c) && c in w.relations && op in ops && Contains(w.relations[c].rewrite, op);
    var n: nat :| FollowsIn(w, b, c, n);
    assert FollowsIn(w, a, c, n + 1);
  }

  /** A target operator in the rewrite or ahead of a relation it refers to. */
  ghost predicate AheadOfRewrite(w: World, typ: string, rw: Rewrite, ops: set<SetOperator>) {
    || (exists op :: op in ops && Contains(rw, op))
    || (exists k :: RefersTo(w, typ, rw, k) && OperatorAhead(w, k, ops))
  }

  /** Each search alone is sound: a hit means that a target operator is reachable. */
  lemma {:induction false} HitAhead(w: World, k: Key, visited: set<Key>, targets: set<SetOperator>)
    requires ValidModel(w) && k in w.relations && Search(w, k, visited, targets).hit
    ensures OperatorAhead(w, k, targets)
    decreases Left(w, visited), 0
  {
    LeftDrops(w, visited, k);
    var walk := Walk(w, k.0, w.relations[k].rewrite, visited + {k}, targets);
    if walk.stop == Some(true) {
      WalkHitAhead(w, k.0, w.relations[k].rewrite, visited + {k}, targets);
      if op :| op in targets && Contains(w.relations[k].rewrite, op) {
        assert FollowsIn(w, k, k, 0);
      } else {
        var b :| RefersTo(w, k.0, w.relations[k].rewrite, b) && OperatorAhead(w, b, targets);
        AheadCons(w, k, b, targets);
      }
    } else {
      LeftShrinks(w, visited + {k}, walk.visited);
      var b := AllHitAhead(w, UsersetKeys(w.relations[k].restrictions), walk.visited, targets);
      AheadCons(w, k, b, targets);
    }
  }

  lemma {:induction false} AllHitAhead(w: World, keys: seq<Key>, visited: set<Key>, targets: set<SetOperator>)
    returns (b: Key)
    requires ValidModel(w) && (forall k :: k in keys ==> k in w.relations) && SearchAll(w, keys, visited, targets).hit
    ensures b in keys && OperatorAhead(w, b, targets)
    decreases Left(w, visited), 1, |keys|
  {
    var f := Search(w, keys[0], visited, targets);
    if f.hit {
      HitAhead(w, keys[0], visited, targets);
      b := keys[0];
    } else {
      LeftShrinks(w, visited, f.visited);
      b := AllHitAhead(w, keys[1..], f.visited, targets);
    }
  }

  lemma {:induction false} WalkHitAhead(w: World, typ: string, rw: Rewrite, visited: set<Key>,
                                        targets: set<SetOperator>)
    requires ValidModel(w) && RefsDefined(w, typ, rw) && Walk(w, typ, rw, visited, targets).stop == Some(true)
    ensures AheadOfRewrite(w, typ, rw, targets)
    decreases Left(w, visited), 2, rw
  {
    match rw
    case Computed(c) => HitAhead(w, (typ, c), visited, targets);
    case TupleToUserset(tupleset, computed) =>
      var b := AllHitAhead(w, ParentKeys(w, w.relations[(typ, tupleset)].restrictions, computed), visited, targets);
    case Union(children) =>
      var i := WalkAllHitAhead(w, typ, children, visited, targets);
      if op :| op in targets && Contains(children[i], op) {
        assert Contains(rw, op);
      } else {
        var b :| RefersTo(w, typ, children[i], b) && OperatorAhead(w, b, targets);
        assert RefersTo(w, typ, rw, b);
      }
    case Intersection(_) => assert Contains(rw, And);
    case Difference(_, _) => assert Contains(rw, ButNot);
  }

  lemma {:induction false} WalkAllHitAhead(w: World, typ: string, children: seq<Rewrite>, visited: set<Key>,
                                           targets: set<SetOperator>)
    returns (i: nat)
    requires ValidModel(w) && (forall i :: 0 <= i < |children| ==> RefsDefined(w, typ, children[i]))
    requires WalkAll(w, typ, children, visited, targets).stop == Some(true)
    ensures i < |children| && AheadOfRewrite(w, typ, children[i], targets)
    decreases Left(w, visited), 2, children
  {
    var r := Walk(w, typ, children[0], visited, targets);
    if r.stop.Some? {
      WalkHitAhead(w, typ, children[0], visited, targets);
      i := 0;
    } else {
      LeftShrinks(w, visited, r.visited);
      i := WalkAllHitAhead(w, typ, children[1..], r.visited, targets);
      i := i + 1;
    }
  }

  // ------------------------------------------------------------ nothing is missed when both operators are targets

  const BOTH: set<SetOperator> := {And, ButNot}

  ghost predicate OperatorFree(rw: Rewrite) {
    forall op :: !Contains(rw, op)
  }

  /** What was marked in between is free of operators, and so is, transitively, what it refers to. */
  ghost predicate Explored(w: World, v: set<Key>, v': set<Key>) {
    forall j :: j in v' && j !in v ==>
      j in w.relations && OperatorFree(w.relations[j].rewrite) && forall b :: Follows(w, j, b) ==> b in v'
  }

  /** The rewrite is free of operators and everything it refers to is marked. */
  ghost predicate RewriteExplored(w: World, typ: string, rw: Rewrite, v': set<Key>) {
    OperatorFree(rw) && forall b :: RefersTo(w, typ, rw, b) ==> b in v'
  }

  lemma ExploredTrans(w: World, v: set<Key>, v': set<Key>, v'': set<Key>)
    requires Explored(w, v, v') && Explored(w, v', v'') && v' <= v''
    ensures Explored(w, v, v'')
  {
  }

  lemma {:induction false} SearchExplores(w: World, k: Key, visited: set<Key>)
    requires ValidModel(w) && k in w.relations && !Search(w, k, visited, BOTH).hit
    ensures Explored(w, visited, Search(w, k, visited, BOTH).visited)
    decreases Left(w, visited), 0
  {
    if k !in visited {
      LeftDrops(w, visited, k);
      var walk := Walk(w, k.0, w.relations[k].rewrite, visited + {k}, BOTH);
      WalkExplores(w, k.0, w.relations[k].rewrite, visited + {k});
      LeftShrinks(w, visited + {k}, walk.visited);
      var keys := UsersetKeys(w.relations[k].restrictions);
      var v' := SearchAll(w, keys, walk.visited, BOTH).visited;
      SearchAllExplores(w, keys, walk.visited);
      ExploredTrans(w, visited + {k}, walk.visited, v');
      ExploredRelation(w, k, visited, walk.visited, v');
    }
  }

  /** A relation is explored if its rewrite and its assigned usersets are. */
  lemma ExploredRelation(w: World, k: Key, visited: set<Key>, v: set<Key>, v': set<Key>)
    requires k in w.relations && v <= v' && RewriteExplored(w, k.0, w.relations[k].rewrite, v)
    requires Explored(w, visited + {k}, v')
    requires forall b :: b in UsersetKeys(w.relations[k].restrictions) ==> b in v'
    ensures Explored(w, visited, v')
  {
    forall b | Follows(w, k, b) ensures b in v' {}
  }

  lemma {:induction false} SearchAllExplores(w: World, keys: seq<Key>, visited: set<Key>)
    requires ValidModel(w) && (forall k :: k in keys ==> k in w.relations) && !SearchAll(w, keys, visited, BOTH).hit
    ensures Explored(w, visited, SearchAll(w, keys, visited, BOTH).visited)
    decreases Left(w, visited), 1, |keys|
  {
    if keys != [] {
      var f := Search(w, keys[0], visited, BOTH);
      SearchExplores(w, keys[0], visited);
      LeftShrinks(w, visited, f.visited);
      SearchAllExplores(w, keys[1..], f.visited);
      ExploredTrans(w, visited, f.visited, SearchAll(w, keys[1..], f.visited, BOTH).visited);
    }
  }

  lemma {:induction false} WalkExplores(w: World, typ: string, rw: Rewrite, visited: set<Key>)
    requires ValidModel(w) && RefsDefined(w, typ, rw) && Walk(w, typ, rw, visited, BOTH).stop != Some(true)
    ensures Walk(w, typ, rw, visited, BOTH).stop == None
    ensures var v' := Walk(w, typ, rw, visited, BOTH).visited;
      Explored(w, visited, v') && RewriteExplored(w, typ, rw, v')
    decreases Left(w, visited), 2, rw
  {
    match rw
    case This =>
    case Computed(c) => SearchExplores(w, (typ, c), visited);
    case TupleToUserset(tupleset, computed) =>
      SearchAllExplores(w, ParentKeys(w, w.relations[(typ, tupleset)].restrictions, computed), visited);
    case Union(children) =>
      WalkAllExplores(w, typ, children, visited);
      UnionExplored(w, typ, children, WalkAll(w, typ, children, visited, BOTH).visited);
    case _ =>
  }

  lemma ExploredMore(w: World, typ: string, rw: Rewrite, v: set<Key>, v': set<Key>)
    requires RewriteExplored(w, typ, rw, v) && v <= v'
    ensures RewriteExplored(w, typ, rw, v')
  {
  }

  lemma UnionExplored(w: World, typ: string, children: seq<Rewrite>, v': set<Key>)
    requires forall i :: 0 <= i < |children| ==> RewriteExplored(w, typ, children[i], v')
    ensures RewriteExplored(w, typ, Union(children), v')
  {
    forall i, op | 0 <= i < |children|
      ensures !Contains(children[i], op)
    {
      assert RewriteExplored(w, typ, children[i], v');
    }
    forall b | RefersTo(w, typ, Union(children), b) ensures b in v' {
      var i :| 0 <= i < |children| && RefersTo(w, typ, children[i], b);
      assert RewriteExplored(w, typ, children[i], v');
    }
  }

  lemma {:induction false} WalkAllExplores(w: World, typ: string, children: seq<Rewrite>, visited: set<Key>)
    requires ValidModel(w) && (forall i :: 0 <= i < |children| ==> RefsDefined(w, typ, children[i]))
    requires WalkAll(w, typ, children, visited, BOTH).stop != Some(true)
    ensures WalkAll(w, typ, children, visited, BOTH).stop == None
    ensures var v' := WalkAll(w, typ, children, visited, BOTH).visited;
      Explored(w, visited, v') && forall i :: 0 <= i < |children| ==> RewriteExplored(w, typ, children[i], v')
    decreases Left(w, visited), 2, children
  {
    if children != [] {
      var r := Walk(w, typ, children[0], visited, BOTH);
      WalkExplores(w, typ, children[0], visited);
      LeftShrinks(w, visited, r.visited);
      WalkAllExplores(w, typ, children[1..], r.visited);
      var v' := WalkAll(w, typ, children[1..], r.visited, BOTH).visited;
      ExploredTrans(w, visited, r.visited, v');
      forall i | 0 <= i < |children| ensures RewriteExplored(w, typ, children[i], v') {
        if i == 0 {
          ExploredMore(w, typ, children[0], r.visited, v');
        } else {
          assert children[i] == children[1..][i - 1];
        }
      }
      assert WalkAll(w, typ, children, visited, BOTH) == WalkAll(w, typ, children[1..], r.visited, BOTH);
    }
  }

  lemma {:induction false} StaysInside(w: World, v: set<Key>, a: Key, b: Key, n: nat)
    requires Explored(w, {}, v) && a in v && FollowsIn(w, a, b, n)
    ensures b in v
    decreases n
  {
    if n > 0 {
      var c :| Follows(w, a, c) && FollowsIn(w, c, b, n - 1);
      StaysInside(w, v, c, b, n - 1);
    }
  }

  lemma BothExact(w: World, k: Key)
    requires ValidModel(w) && k in w.relations
    ensures Search(w, k, {}, BOTH).hit <==> OperatorAhead(w, k, BOTH)
  {
    if Search(w, k, {}, BOTH).hit {
      HitAhead(w, k, {}, BOTH);
    } else {
      SearchExplores(w, k, {});
      var v := Search(w, k, {}, BOTH).visited;
      forall b, op | Reachable(w, k, b) && b in w.relations && op in BOTH
        ensures !Contains(w.relations[b].rewrite, op)
      {
        var n: nat :| FollowsIn(w, k, b, n);
        StaysInside(w, v, k, b, n);
      }
    }
  }

  // ------------------------------------------------------------ the two searches together

  /** Until an operator is met, the target does not matter. */
  lemma {:induction false} SearchSame(w: World, k: Key, visited: set<Key>, targets: set<SetOperator>)
    requires ValidModel(w) && k in w.relations && !Search(w, k, visited, BOTH).hit
    ensures Search(w, k, visited, targets) == Search(w, k, visited, BOTH)
    decreases Left(w, visited), 0
  {
    if k !in visited {
      LeftDrops(w, visited, k);
      var walk := Walk(w, k.0, w.relations[k].rewrite, visited + {k}, BOTH);
      WalkExplores(w, k.0, w.relations[k].rewrite, visited + {k});
      WalkSame(w, k.0, w.relations[k].rewrite, visited + {k}, targets);
      LeftShrinks(w, visited + {k}, walk.visited);
      SearchAllSame(w, UsersetKeys(w.relations[k].restrictions), walk.visited, targets);
    }
  }

  lemma {:induction false} SearchAllSame(w: World, keys: seq<Key>, visited: set<Key>, targets: set<SetOperator>)
    requires ValidModel(w) && (forall k :: k in keys ==> k in w.relations) && !SearchAll(w, keys, visited, BOTH).hit
    ensures SearchAll(w, keys, visited, targets) == SearchAll(w, keys, visited, BOTH)
    decreases Left(w, visited), 1, |keys|
  {
    if keys != [] {
      var f := Search(w, keys[0], visited, BOTH);
      SearchSame(w, keys[0], visited, targets);
      LeftShrinks(w, visited, f.visited);
      SearchAllSame(w, keys[1..], f.visited, targets);
    }
  }

  lemma {:induction false} WalkSame(w: World, typ: string, rw: Rewrite, visited: set<Key>, targets: set<SetOperator>)
    requires ValidModel(w) && RefsDefined(w, typ, rw) && Walk(w, typ, rw, visited, BOTH).stop == None
    ensures Walk(w, typ, rw, visited, targets) == Walk(w, typ, rw, visited, BOTH)
    decreases Left(w, visited), 2, rw
  {
    match rw
    case This =>
    case Computed(c) => SearchSame(w, (typ, c), visited, targets);
    case TupleToUserset(tupleset, computed) =>
      SearchAllSame(w, ParentKeys(w, w.relations[(typ, tupleset)].restrictions, computed), visited, targets);
    case Union(children) => WalkAllSame(w, typ, children, visited, targets);
  }

  lemma {:induction false} WalkAllSame(w: World, typ: string, children: seq<Rewrite>, visited: set<Key>,
                                       targets: set<SetOperator>)
    requires ValidModel(w) && (forall i :: 0 <= i < |children| ==> RefsDefined(w, typ, children[i]))
    requires WalkAll(w, typ, children, visited, BOTH).stop == None
    ensures WalkAll(w, typ, children, visited, targets) == WalkAll(w, typ, children, visited, BOTH)
    decreases Left(w, visited), 2, children
  {
    if children != [] {
      var r := Walk(w, typ, children[0], visited, BOTH);
      WalkSame(w, typ, children[0], visited, targets);
      LeftShrinks(w, visited, r.visited);
      WalkAllSame(w, typ, children[1..], r.visited, targets);
    }
  }

  /** The search for the operator that is met first hits. */
  lemma {:induction false} FirstHit(w: World, k: Key, visited: set<Key>) returns (op: SetOperator)
    requires ValidModel(w) && k in w.relations && Search(w, k, visited, BOTH).hit
    ensures Search(w, k, visited, {op}).hit
    decreases Left(w, visited), 0
  {
    LeftDrops(w, visited, k);
    var walk := Walk(w, k.0, w.relations[k].rewrite, visited + {k}, BOTH);
    if walk.stop == Some(true) {
      op := FirstStop(w, k.0, w.relations[k].rewrite, visited + {k});
    } else {
      WalkExplores(w, k.0, w.relations[k].rewrite, visited + {k});
      LeftShrinks(w, visited + {k}, walk.visited);
      op := FirstAllHit(w, UsersetKeys(w.relations[k].restrictions), walk.visited);
      WalkSame(w, k.0, w.relations[k].rewrite, visited + {k}, {op});
    }
  }

  lemma {:induction false} FirstAllHit(w: World, keys: seq<Key>, visited: set<Key>) returns (op: SetOperator)
    requires ValidModel(w) && (forall k :: k in keys ==> k in w.relations) && SearchAll(w, keys, visited, BOTH).hit
    ensures SearchAll(w, keys, visited, {op}).hit
    decreases Left(w, visited), 1, |keys|
  {
    var f := Search(w, keys[0], visited, BOTH);
    if f.hit {
      op := FirstHit(w, keys[0], visited);
    } else {
      LeftShrinks(w, visited, f.visited);
      op := FirstAllHit(w, keys[1..], f.visited);
      SearchSame(w, keys[0], visited, {op});
    }
  }

  lemma {:induction false} FirstStop(w: World, typ: string, rw: Rewrite, visited: set<Key>) returns (op: SetOperator)
    requires ValidModel(w) && RefsDefined(w, typ, rw) && Walk(w, typ, rw, visited, BOTH).stop == Some(true)
    ensures Walk(w, typ, rw, visited, {op}).stop == Some(true)
    decreases Left(w, visited), 2, rw
  {
    match rw
    case Computed(c) => op := FirstHit(w, (typ, c), visited);
    case TupleToUserset(tupleset, computed) =>
      op := FirstAllHit(w, ParentKeys(w, w.relations[(typ, tupleset)].restrictions, computed), visited);
    case Union(children) => op := FirstAllStop(w, typ, children, visited);
    case Intersection(_) => op := And;
    case Difference(_, _) => op := ButNot;
  }

  lemma {:induction false} FirstAllStop(w: World, typ: string, children: seq<Rewrite>, visited: set<Key>)
    returns (op: SetOperator)
    requires ValidModel(w) && (forall i :: 0 <= i < |children| ==> RefsDefined(w, typ, children[i]))
    requires WalkAll(w, typ, children, visited, BOTH).stop == Some(true)
    ensures WalkAll(w, typ, children, visited, {op}).stop == Some(true)
    decreases Left(w, visited), 2, children
  {
    var r := Walk(w, typ, children[0], visited, BOTH);
    if r.stop == Some(true) {
      op := FirstStop(w, typ, children[0], visited);
    } else {
      WalkExplores(w, typ, children[0], visited);
      LeftShrinks(w, visited, r.visited);
      op := FirstAllStop(w, typ, children[1..], r.visited);
      WalkSame(w, typ, children[0], visited, {op});
    }
  }

  /**
   * On valid models the two searches together are exact: one of them hits if and only if some reachable
   * relation contains an intersection or an exclusion.
   */
  lemma TogetherExact(w: World, k: Key)
    requires ValidModel(w) && k in w.relations
    ensures Search(w, k, {}, {And}).hit || Search(w, k, {}, {ButNot}).hit <==> OperatorAhead(w, k, BOTH)
  {
    BothExact(w, k);
    if Search(w, k, {}, BOTH).hit {
      var op := FirstHit(w, k, {});
      assert op == And || op == ButNot;
    } else {
      SearchSame(w, k, {}, {And});
      SearchSame(w, k, {}, {ButNot});
    }
  }

  // ------------------------------------------------------------ the code

  lemma {:induction false} SearchAllMarked(w: World, keys: seq<Key>, visited: set<Key>, targets: set<SetOperator>)
    requires ValidModel(w) && forall k :: k in keys ==> k in w.relations && k in visited
    ensures SearchAll(w, keys, visited, targets) == Found(false, visited)
    decreases |keys|
  {
    if keys != [] { SearchAllMarked(w, keys[1..], visited, targets); }
  }

  lemma SearchAllCons(w: World, k: Key, rest: seq<Key>, visited: set<Key>, targets: set<SetOperator>)
    requires ValidModel(w) && k in w.relations && forall b :: b in rest ==> b in w.relations
    ensures SearchAll(w, [k] + rest, visited, targets) ==
      var f := Search(w, k, visited, targets); if f.hit then f else SearchAll(w, rest, f.visited, targets)
  {
  }

  /** relationInvolves for one target operator. */
  method RelationInvolves(w: World, k: Key, visited: set<Key>, target: SetOperator)
    returns (hit: bool, visited': set<Key>)
    requires ValidModel(w) && k in w.relations
    ensures Found(hit, visited') == Search(w, k, visited, {target})
    decreases Left(w, visited), 0
  {
    if k in visited { return false, visited; }
    LeftDrops(w, visited, k);
    var stop;
    stop, visited' := WalkUsersetRewrite(w, k.0, w.relations[k].rewrite, visited + {k}, target);
    LeftShrinks(w, visited + {k}, visited');
    if stop == Some(true) { return true, visited'; }
    hit, visited' := InvolvesUserset(w, w.relations[k].restrictions, visited', target);
  }

  /** The loop over the type restrictions: assigned usersets not seen before. */
  method InvolvesUserset(w: World, rs: seq<Restriction>, visited: set<Key>, target: SetOperator)
    returns (hit: bool, visited': set<Key>)
    requires ValidModel(w) && forall k :: k in UsersetKeys(rs) ==> k in w.relations
    ensures Found(hit, visited') == SearchAll(w, UsersetKeys(rs), visited, {target})
    decreases Left(w, visited), 1
  {
    visited' := visited;
    for i := 0 to |rs|
      invariant visited <= visited' && forall k :: k in UsersetKeys(rs[i..]) ==> k in w.relations
      invariant SearchAll(w, UsersetKeys(rs[i..]), visited', {target}) ==
        SearchAll(w, UsersetKeys(rs), visited, {target})
    {
      assert rs[i..][1..] == rs[i + 1..];
      ghost var rest := UsersetKeys(rs[i + 1..]);
      if rs[i].Userset? {
        var key := (rs[i].typ, rs[i].relation);
        assert UsersetKeys(rs[i..]) == [key] + rest;
        SearchAllCons(w, key, rest, visited', {target});
        if key in visited' { continue; }
        LeftShrinks(w, visited, visited');
        hit, visited' := RelationInvolves(w, key, visited', target);
        if hit { return; }
      } else {
        assert UsersetKeys(rs[i..]) == rest;
      }
    }
    hit := false;
  }

  /** The loop over the types of a tupleset: those that define the computed relation. */
  method InvolvesParent(w: World, rs: seq<Restriction>, computed: string, visited: set<Key>, target: SetOperator)
    returns (hit: bool, visited': set<Key>)
    requires ValidModel(w)
    ensures Found(hit, visited') == SearchAll(w, ParentKeys(w, rs, computed), visited, {target})
    decreases Left(w, visited), 1
  {
    visited' := visited;
    for i := 0 to |rs|
      invariant visited <= visited'
      invariant SearchAll(w, ParentKeys(w, rs[i..], computed), visited', {target}) ==
        SearchAll(w, ParentKeys(w, rs, computed), visited, {target})
    {
      ParentKeysStep(w, rs, computed, i);
      var key := (rs[i].typ, computed);
      ghost var rest := ParentKeys(w, rs[i + 1..], computed);
      if key in w.relations {
        SearchAllCons(w, key, rest, visited', {target});
        LeftShrinks(w, visited, visited');
        hit, visited' := RelationInvolves(w, key, visited', target);
        if hit { return; }
      }
    }
    hit := false;
  }

  lemma ParentKeysStep(w: World, rs: seq<Restriction>, computed: string, i: nat)
    requires i < |rs|
    ensures (rs[i].typ, computed) in w.relations ==>
      ParentKeys(w, rs[i..], computed) == [(rs[i].typ, computed)] + ParentKeys(w, rs[i + 1..], computed)
    ensures (rs[i].typ, computed) !in w.relations ==>
      ParentKeys(w, rs[i..], computed) == ParentKeys(w, rs[i + 1..], computed)
  {
    assert rs[i..][1..] == rs[i + 1..] && rs[i..][0] == rs[i];
  }

  /** The handler given to the walk. */
  method Handle(w: World, typ: string, rw: Rewrite, visited: set<Key>, target: SetOperator)
    returns (stop: Option<bool>, visited': set<Key>)
    requires ValidModel(w) && RefsDefined(w, typ, rw)
    ensures rw.Union? ==> stop == None && visited' == visited
    ensures !rw.Union? ==> Walked(stop, visited') == Walk(w, typ, rw, visited, {target})
    decreases Left(w, visited), 2
  {
    var hit := false;
    visited' := visited;
    match rw {
      case Computed(c) => hit, visited' := RelationInvolves(w, (typ, c), visited, target);
      case TupleToUserset(tupleset, computed) =>
        hit, visited' := InvolvesParent(w, w.relations[(typ, tupleset)].restrictions, computed, visited, target);
      case Intersection(_) => return Some(target == And), visited;
      case Difference(_, _) => return Some(target == ButNot), visited;
      case _ =>
    }
    stop := if hit then Some(true) else None;
  }

  /** WalkUsersetRewrite: the handler first, then again on a leaf, or on the children up to the first verdict. */
  method WalkUsersetRewrite(w: World, typ: string, rw: Rewrite, visited: set<Key>, target: SetOperator)
    returns (stop: Option<bool>, visited': set<Key>)
    requires ValidModel(w) && RefsDefined(w, typ, rw)
    ensures Walked(stop, visited') == Walk(w, typ, rw, visited, {target})
    decreases Left(w, visited), 3, rw
  {
    stop, visited' := Handle(w, typ, rw, visited, target);
    if stop.Some? { return; }
    LeftShrinks(w, visited, visited');
    if rw.Union? {
      stop, visited' := WalkChildren(w, typ, rw.children, visited, target);
    } else if rw.This? || rw.Computed? || rw.TupleToUserset? {
      LeafTwice(w, typ, rw, visited, {target});
      stop, visited' := Handle(w, typ, rw, visited', target);
    }
  }

  /** Handling a leaf again changes nothing. */
  lemma LeafTwice(w: World, typ: string, rw: Rewrite, visited: set<Key>, targets: set<SetOperator>)
    requires ValidModel(w) && RefsDefined(w, typ, rw) && (rw.This? || rw.Computed? || rw.TupleToUserset?)
    requires Walk(w, typ, rw, visited, targets).stop == None
    ensures var v' := Walk(w, typ, rw, visited, targets).visited; Walk(w, typ, rw, v', targets) == Walked(None, v')
  {
    if rw.TupleToUserset? {
      var keys := ParentKeys(w, w.relations[(typ, rw.tupleset)].restrictions, rw.computed);
      SearchAllMarked(w, keys, SearchAll(w, keys, visited, targets).visited, targets);
    }
  }

  method WalkChildren(w: World, typ: string, children: seq<Rewrite>, visited: set<Key>, target: SetOperator)
    returns (stop: Option<bool>, visited': set<Key>)
    requires ValidModel(w) && forall i :: 0 <= i < |children| ==> RefsDefined(w, typ, children[i])
    ensures Walked(stop, visited') == WalkAll(w, typ, children, visited, {target})
    decreases Left(w, visited), 3, children
  {
    visited' := visited;
    for i := 0 to |children|
      invariant visited <= visited'
      invariant WalkAll(w, typ, children[i..], visited', {target}) == WalkAll(w, typ, children, visited, {target})
    {
      assert children[i..][0] == children[i] && children[i..][1..] == children[i + 1..];
      LeftShrinks(w, visited, visited');
      stop, visited' := WalkUsersetRewrite(w, typ, children[i], visited', target);
      if stop.Some? { return; }
    }
    stop := None;
  }

  /**
   * The two queries as the edge computation combines them: true exactly if an intersection or an
   * exclusion is reachable. An undefined relation is an error.
   */
  method InvolvesIntersectionOrExclusion(w: World, k: Key) returns (r: Option<bool>)
    requires ValidModel(w)
    ensures r.None? <==> k !in w.relations
    ensures r.Some? ==> (r.value <==> OperatorAhead(w, k, BOTH))
  {
    if k !in w.relations { return None; }
    var intersection, v := RelationInvolves(w, k, {}, And);
    var exclusion, v' := RelationInvolves(w, k, {}, ButNot);
    TogetherExact(w, k);
    return Some(intersection || exclusion);
  }

  // ------------------------------------------------------------ neither query alone is exact

  /** `viewer: ([user] but not [user]) or ([user] and [user])`. */
  const MIXED: Rewrite := Union([Difference(This, This), Intersection([This, This])])

  /** The search for intersections misses the second operand, because the walk stops at the exclusion. */
  lemma IntersectionMissed(w: World, k: Key)
    requires ValidModel(w) && k in w.relations && w.relations[k] == Relation(MIXED, [Direct("user")])
    ensures OperatorAhead(w, k, {And}) && !Search(w, k, {}, {And}).hit
  {
    assert FollowsIn(w, k, k, 0);
    assert Contains(MIXED.children[1], And);
    assert Contains(MIXED, And);
    assert UsersetKeys([Direct("user")]) == [];
    assert Walk(w, k.0, MIXED.children[0], {k}, {And}).stop == Some(false);
    assert Walk(w, k.0, MIXED, {k}, {And}).stop == Some(false);
    assert {} + {k} == {k};
  }

  /** Where only one of the operators can be reached, the query for it is exact. */
  lemma OneKindExact(w: World, k: Key, op: SetOperator)
    requires ValidModel(w) && k in w.relations
    requires forall b, o :: Reachable(w, k, b) && b in w.relations && Contains(w.relations[b].rewrite, o) ==> o == op
    ensures Search(w, k, {}, {op}).hit <==> OperatorAhead(w, k, {op})
  {
    BothExact(w, k);
    if Search(w, k, {}, {op}).hit { HitAhead(w, k, {}, {op}); }
    if OperatorAhead(w, k, {op}) {
      var b, o :| Reachable(w, k, b) && b in w.relations && o in {op} && Contains(w.relations[b].rewrite, o);
      assert o in BOTH;
      var first := FirstHit(w, k, {});
      HitAhead(w, k, {}, {first});
      assert first == op;
    }
  }
}
