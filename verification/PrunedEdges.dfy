/** The pruned relationship edges: which references to a source lie on the way to a target relation. */
module PrunedEdges {
  import opened Options
  import opened Model
  import opened Involves
  import opened EdgePlaces
  import opened EdgeItems

  // ------------------------------------------------------------ the search, as a specification

  /** The edges gathered, the marks, and the newly marked relations in order. */
  datatype Gather = Gather(edges: seq<Edge>, visited: set<Key>, order: seq<Key>)

  /** Collects the occurrences among the items and those of the relations they refer to, each relation once. */
  ghost function GatherItems(w: World, source: Restriction, items: seq<Item>, visited: set<Key>): (g: Gather)
    ensures visited <= g.visited
    decreases Left(w, visited), |items|
  {
    if items == [] then Gather([], visited, [])
    else match items[0]
      case Own(e) =>
        var rest := GatherItems(w, source, items[1..], visited);
        Gather([e] + rest.edges, rest.visited, rest.order)
      case Ref(k, raised) =>
        if k in visited || k !in w.relations then GatherItems(w, source, items[1..], visited)
        else
          LeftDrops(w, visited, k);
          var sub := GatherItems(w, source, ItemsOf(w, k, source), visited + {k});
          LeftShrinks(w, visited + {k}, sub.visited);
          var rest := GatherItems(w, source, items[1..], sub.visited);
          Gather((if raised then Raise(sub.edges)
            else sub.edges) + rest.edges, rest.visited, [k] + sub.order + rest.order)
  }

  /** One gathering after another. */
  ghost function Then(g: Gather, h: Gather): Gather {
    Gather(g.edges + h.edges, h.visited, g.order + h.order)
  }

  lemma ThenAssociates(f: Gather, g: Gather, h: Gather)
    ensures Then(Then(f, g), h) == Then(f, Then(g, h))
  {
  }

  /** What the first item alone gathers. */
  ghost function GatherOne(w: World, source: Restriction, item: Item, visited: set<Key>): (g: Gather)
    ensures visited <= g.visited
  {
    match item
    case Own(e) => Gather([e], visited, [])
    case Ref(k, raised) =>
      if k in visited || k !in w.relations then Gather([], visited, [])
      else
        var sub := GatherItems(w, source, ItemsOf(w, k, source), visited + {k});
        Gather(if raised then Raise(sub.edges) else sub.edges, sub.visited, [k] + sub.order)
  }

  lemma GatherCons(w: World, source: Restriction, items: seq<Item>, visited: set<Key>)
    requires items != []
    ensures var g := GatherOne(w, source, items[0], visited);
      GatherItems(w, source, items, visited) == Then(g, GatherItems(w, source, items[1..], g.visited))
  {
  }

  lemma {:induction false} GatherConcat(w: World, source: Restriction, a: seq<Item>, b: seq<Item>, visited: set<Key>)
    ensures var g := GatherItems(w, source, a, visited);
      GatherItems(w, source, a + b, visited) == Then(g, GatherItems(w, source, b, g.visited))
    decreases |a|
  {
    if a == [] {
      assert a + b == b;
      var h := GatherItems(w, source, b, visited);
      assert [] + h.edges == h.edges && [] + h.order == h.order;
    } else {
      assert (a + b)[0] == a[0] && (a + b)[1..] == a[1..] + b;
      var g := GatherOne(w, source, a[0], visited);
      GatherCons(w, source, a, visited);
      GatherCons(w, source, a + b, visited);
      GatherConcat(w, source, a[1..], b, g.visited);
      var h := GatherItems(w, source, a[1..], g.visited);
      ThenAssociates(g, h, GatherItems(w, source, b, h.visited));
    }
  }

  lemma RaiseConcat(a: seq<Edge>, b: seq<Edge>)
    ensures Raise(a + b) == Raise(a) + Raise(b)
  {
  }

  lemma {:induction false} GatherRaised(w: World, source: Restriction, items: seq<Item>, visited: set<Key>)
    ensures var g := GatherItems(w, source, items, visited);
      GatherItems(w, source, RaiseItems(items), visited) == Gather(Raise(g.edges), g.visited, g.order)
    decreases Left(w, visited), |items|
  {
    if items != [] {
      assert RaiseItems(items)[1..] == RaiseItems(items[1..]);
      match items[0]
      case Own(e) =>
        GatherRaised(w, source, items[1..], visited);
        assert Raise([e]) == [e.(flagged := true)];
        RaiseConcat([e], GatherItems(w, source, items[1..], visited).edges);
      case Ref(k, raised) =>
        if k in visited || k !in w.relations {
          GatherRaised(w, source, items[1..], visited);
        } else {
          LeftDrops(w, visited, k);
          var sub := GatherItems(w, source, ItemsOf(w, k, source), visited + {k});
          LeftShrinks(w, visited + {k}, sub.visited);
          GatherRaised(w, source, items[1..], sub.visited);
          assert Raise(Raise(sub.edges)) == Raise(sub.edges);
          RaiseConcat(if raised then Raise(sub.edges)
            else sub.edges, GatherItems(w, source, items[1..], sub.visited).edges);
        }
    }
  }

  // ------------------------------------------------------------ references among the items

  /** The items refer to `b`. */
  ghost predicate Refs(w: World, items: seq<Item>, b: Key, raised: bool) {
    b in w.relations && Ref(b, raised) in items
  }

  lemma RefsPruned(w: World, source: Restriction, a: Key, c: Key, r: bool)
    ensures Refs(w, ItemsOf(w, a, source), c, r) <==> PrunedRef(w, a, c, r)
  {
    if a in w.relations && c in w.relations { ItemReferences(w, a, w.relations[a].rewrite, source, c, r); }
  }

  // ------------------------------------------------------------ every relation once

  /** The marks grow by `order`, whose relations are new and pairwise different. */
  ghost predicate Marks(visited: set<Key>, visited': set<Key>, order: seq<Key>) {
    && visited' == visited + (set k | k in order)
    && (forall i :: 0 <= i < |order| ==> order[i] !in visited)
    && (forall i, j :: 0 <= i < j < |order| ==> order[i] != order[j])
  }

  lemma MarksConcat(v0: set<Key>, v1: set<Key>, v2: set<Key>, a: seq<Key>, b: seq<Key>)
    requires Marks(v0, v1, a) && Marks(v1, v2, b)
    ensures Marks(v0, v2, a + b)
  {
  }

  lemma MarksNone(visited: set<Key>)
    ensures Marks(visited, visited, [])
  {
  }

  lemma MarksOne(visited: set<Key>, k: Key)
    requires k !in visited
    ensures Marks(visited, visited + {k}, [k])
  {
  }

  lemma {:induction false} GatherMarks(w: World, source: Restriction, items: seq<Item>, visited: set<Key>)
    ensures var g := GatherItems(w, source, items, visited); Marks(visited, g.visited, g.order)
    decreases Left(w, visited), |items|
  {
    MarksNone(visited);
    if items != [] {
      var g := GatherOne(w, source, items[0], visited);
      var h := GatherItems(w, source, items[1..], g.visited);
      GatherCons(w, source, items, visited);
      if items[0].Ref? && items[0].key !in visited && items[0].key in w.relations {
        var k := items[0].key;
        LeftDrops(w, visited, k);
        GatherMarks(w, source, ItemsOf(w, k, source), visited + {k});
        var sub := GatherItems(w, source, ItemsOf(w, k, source), visited + {k});
        MarksOne(visited, k);
        MarksConcat(visited, visited + {k}, sub.visited, [k], sub.order);
        LeftShrinks(w, visited + {k}, sub.visited);
      }
      assert Marks(visited, g.visited, g.order);
      GatherMarks(w, source, items[1..], g.visited);
      MarksConcat(visited, g.visited, h.visited, g.order, h.order);
    }
  }

  // ------------------------------------------------------------ exactly the relations on pruned paths

  ghost predicate ItemsMarked(w: World, source: Restriction, items: seq<Item>, visited: set<Key>) {
    forall c, r :: Refs(w, items, c, r) ==> c in visited
  }

  /** Whatever a listed relation refers to is marked. */
  ghost predicate Closed(w: World, source: Restriction, order: seq<Key>, visited: set<Key>) {
    forall j :: j in order ==> ItemsMarked(w, source, ItemsOf(w, j, source), visited)
  }

  lemma ClosedMore(w: World, source: Restriction, a: seq<Key>, b: seq<Key>, v: set<Key>, v': set<Key>)
    requires Closed(w, source, a, v) && Closed(w, source, b, v') && v <= v'
    ensures Closed(w, source, a + b, v')
  {
  }

  lemma {:induction false} GatherClosed(w: World, source: Restriction, items: seq<Item>, visited: set<Key>)
    ensures var g := GatherItems(w, source, items, visited);
      ItemsMarked(w, source, items, g.visited) && Closed(w, source, g.order, g.visited)
    decreases Left(w, visited), |items|
  {
    if items != [] {
      var g := GatherOne(w, source, items[0], visited);
      var h := GatherItems(w, source, items[1..], g.visited);
      GatherCons(w, source, items, visited);
      if items[0].Ref? && items[0].key !in visited && items[0].key in w.relations {
        var k := items[0].key;
        LeftDrops(w, visited, k);
        GatherClosed(w, source, ItemsOf(w, k, source), visited + {k});
        var sub := GatherItems(w, source, ItemsOf(w, k, source), visited + {k});
        assert Closed(w, source, [k], sub.visited);
        ClosedMore(w, source, [k], sub.order, sub.visited, sub.visited);
        LeftShrinks(w, visited + {k}, sub.visited);
      }
      GatherClosed(w, source, items[1..], g.visited);
      ClosedMore(w, source, g.order, h.order, g.visited, h.visited);
      forall c, r | Refs(w, items, c, r) ensures c in h.visited {
        if Ref(c, r) != items[0] { assert Ref(c, r) in items[1..] && Refs(w, items[1..], c, r); }
      }
    }
  }

  /** Some reference among the items leads to `j`. */
  ghost predicate ItemsLead(w: World, source: Restriction, items: seq<Item>, j: Key) {
    exists c, r :: Refs(w, items, c, r) && OnPath(w, c, j)
  }

  lemma LeadMore(w: World, source: Restriction, items: seq<Item>, items': seq<Item>, j: Key)
    requires ItemsLead(w, source, items, j) && forall x :: x in items ==> x in items'
    ensures ItemsLead(w, source, items', j)
  {
    var c, r :| Refs(w, items, c, r) && OnPath(w, c, j);
    assert Refs(w, items', c, r);
  }

  lemma LeadUp(w: World, source: Restriction, k: Key, j: Key)
    requires ItemsLead(w, source, ItemsOf(w, k, source), j)
    ensures OnPath(w, k, j)
  {
    var c, r :| Refs(w, ItemsOf(w, k, source), c, r) && OnPath(w, c, j);
    RefsPruned(w, source, k, c, r);
    if Path(w, c, j, true) {
      PathCons(w, k, c, r, j, true);
    } else {
      PathCons(w, k, c, r, j, false);
    }
  }

  lemma {:induction false} GatherLeads(w: World, source: Restriction, items: seq<Item>, visited: set<Key>)
    ensures var g := GatherItems(w, source, items, visited); forall j :: j in g.order ==> ItemsLead(w, source, items, j)
    decreases Left(w, visited), |items|
  {
    if items != [] {
      var g := GatherOne(w, source, items[0], visited);
      var h := GatherItems(w, source, items[1..], g.visited);
      GatherCons(w, source, items, visited);
      if items[0].Ref? && items[0].key !in visited && items[0].key in w.relations {
        var k := items[0].key;
        LeftDrops(w, visited, k);
        GatherLeads(w, source, ItemsOf(w, k, source), visited + {k});
        var sub := GatherItems(w, source, ItemsOf(w, k, source), visited + {k});
        LeftShrinks(w, visited + {k}, sub.visited);
        PathSelf(w, k);
        assert Refs(w, items, k, items[0].raised);
        forall j | j in g.order ensures ItemsLead(w, source, items, j) {
          if j != k { LeadUp(w, source, k, j); }
        }
      }
      GatherLeads(w, source, items[1..], g.visited);
      forall j | j in h.order ensures ItemsLead(w, source, items, j) { LeadMore(w, source, items[1..], items, j); }
    }
  }

  // ------------------------------------------------------------ one edge per occurrence

  function Strip(edges: seq<Edge>): (r: seq<Edge>)
    ensures |r| == |edges| && forall i :: 0 <= i < |edges| ==> r[i] == edges[i].(flagged := false)
  {
    seq(|edges|, i requires 0 <= i < |edges| => edges[i].(flagged := false))
  }

  /** The edges up to order and flags. */
  function Bag(edges: seq<Edge>): multiset<Edge> {
    multiset(Strip(edges))
  }

  lemma BagConcat(a: seq<Edge>, b: seq<Edge>)
    ensures Bag(a + b) == Bag(a) + Bag(b)
  {
    assert Strip(a + b) == Strip(a) + Strip(b);
  }

  lemma BagRaise(a: seq<Edge>)
    ensures Bag(Raise(a)) == Bag(a)
  {
    assert Strip(Raise(a)) == Strip(a);
  }

  lemma {:induction false} OwnedAllConcat(w: World, source: Restriction, a: seq<Key>, b: seq<Key>)
    ensures Bag(OwnedAll(w, source, a + b)) == Bag(OwnedAll(w, source, a)) + Bag(OwnedAll(w, source, b))
    decreases |a|
  {
    if a == [] {
      assert a + b == b;
    } else {
      assert (a + b)[0] == a[0] && (a + b)[1..] == a[1..] + b;
      OwnedAllConcat(w, source, a[1..], b);
      BagConcat(Owned(ItemsOf(w, a[0], source)), OwnedAll(w, source, a[1..] + b));
      BagConcat(Owned(ItemsOf(w, a[0], source)), OwnedAll(w, source, a[1..]));
    }
  }

  lemma OwnedAllOne(w: World, source: Restriction, k: Key, order: seq<Key>)
    ensures Bag(OwnedAll(w, source, [k] + order)) == Bag(Owned(ItemsOf(w, k, source))) + Bag(OwnedAll(w, source, order))
  {
    assert ([k] + order)[0] == k && ([k] + order)[1..] == order;
    BagConcat(Owned(ItemsOf(w, k, source)), OwnedAll(w, source, order));
  }

  lemma CountsThen(w: World, source: Restriction, g: Gather, h: Gather, own: seq<Edge>, owned: seq<Edge>)
    requires Bag(g.edges) == Bag(own) + Bag(OwnedAll(w, source, g.order))
    requires Bag(h.edges) == Bag(owned) + Bag(OwnedAll(w, source, h.order))
    ensures Bag(g.edges + h.edges) == Bag(own + owned) + Bag(OwnedAll(w, source, g.order + h.order))
  {
    BagConcat(g.edges, h.edges);
    BagConcat(own, owned);
    OwnedAllConcat(w, source, g.order, h.order);
  }

  ghost predicate Counted(w: World, source: Restriction, g: Gather, owned: seq<Edge>) {
    Bag(g.edges) == Bag(owned) + Bag(OwnedAll(w, source, g.order))
  }

  function OwnEdge(item: Item): seq<Edge> {
    if item.Own? then [item.edge] else []
  }

  lemma SubCounted(w: World, source: Restriction, k: Key, raised: bool, sub: Gather)
    requires Counted(w, source, sub, Owned(ItemsOf(w, k, source)))
    ensures Counted(w, source, Gather(if raised then Raise(sub.edges) else sub.edges, sub.visited, [k] + sub.order), [])
  {
    BagRaise(sub.edges);
    OwnedAllOne(w, source, k, sub.order);
  }

  lemma {:induction false} GatherCounts(w: World, source: Restriction, items: seq<Item>, visited: set<Key>)
    ensures Counted(w, source, GatherItems(w, source, items, visited), Owned(items))
    decreases Left(w, visited), |items|
  {
    if items != [] {
      var g := GatherOne(w, source, items[0], visited);
      var h := GatherItems(w, source, items[1..], g.visited);
      if items[0].Ref? && items[0].key !in visited && items[0].key in w.relations {
        var k := items[0].key;
        LeftDrops(w, visited, k);
        GatherCounts(w, source, ItemsOf(w, k, source), visited + {k});
        var sub := GatherItems(w, source, ItemsOf(w, k, source), visited + {k});
        LeftShrinks(w, visited + {k}, sub.visited);
        SubCounted(w, source, k, items[0].raised, sub);
      }
      assert Counted(w, source, g, OwnEdge(items[0]));
      GatherCounts(w, source, items[1..], g.visited);
      CountsThen(w, source, g, h, OwnEdge(items[0]), Owned(items[1..]));
      GatherCons(w, source, items, visited);
      assert Owned(items) == OwnEdge(items[0]) + Owned(items[1..]);
    }
  }

  // ------------------------------------------------------------ every flag has a reason

  /**
   * The edge is an occurrence in a relation at the end of a path from `c`; it is flagged if the start, the
   * path or the occurrence is.
   */
  ghost predicate Via(w: World, source: Restriction, c: Key, r: bool, e: Edge) {
    exists f, o :: Path(w, c, e.target, f) && Own(o) in ItemsOf(w, e.target, source) &&
      e == o.(flagged := r || f || o.flagged)
  }

  ghost predicate Explained(w: World, source: Restriction, items: seq<Item>, e: Edge) {
    Own(e) in items || exists c, r :: Refs(w, items, c, r) && Via(w, source, c, r, e)
  }

  lemma ExplainedMore(w: World, source: Restriction, items: seq<Item>, items': seq<Item>, e: Edge)
    requires Explained(w, source, items, e) && forall x :: x in items ==> x in items'
    ensures Explained(w, source, items', e)
  {
  }

  lemma OwnTarget(w: World, k: Key, rw: Rewrite, source: Restriction, e: Edge)
    requires k in w.relations && Own(e) in Items(w, k, rw, source)
    ensures e.target == k
  {
    var spots := ItemSpots(w, k, rw, source);
    OwnedHas(Items(w, k, rw, source), e);
    var i :| 0 <= i < |spots| && Owned(Items(w, k, rw, source))[i] == e;
    assert SpotEdge(w, k, rw, source, spots[i]).target == k;
  }

  /** An edge explained by the items of `k` is explained by a reference to `k`. */
  lemma ViaRelation(w: World, source: Restriction, k: Key, raised: bool, e: Edge)
    requires k in w.relations && Explained(w, source, ItemsOf(w, k, source), e)
    ensures Via(w, source, k, raised, if raised then e.(flagged := true) else e)
  {
    var e' := if raised then e.(flagged := true) else e;
    if Own(e) in ItemsOf(w, k, source) {
      OwnTarget(w, k, w.relations[k].rewrite, source, e);
      PathSelf(w, k);
      assert e' == e.(flagged := raised || false || e.flagged);
    } else {
      var c, r :| Refs(w, ItemsOf(w, k, source), c, r) && Via(w, source, c, r, e);
      var f, o :| Path(w, c, e.target, f) && Own(o) in ItemsOf(w, e.target, source) &&
        e == o.(flagged := r || f || o.flagged);
      RefsPruned(w, source, k, c, r);
      PathCons(w, k, c, r, e.target, f);
      assert e' == o.(flagged := raised || (r || f) || o.flagged);
    }
  }

  lemma SubExplained(w: World, source: Restriction, items: seq<Item>, k: Key, raised: bool, sub: seq<Edge>,
                     edges: seq<Edge>, e: Edge)
    requires k in w.relations && Refs(w, items, k, raised)
    requires (forall x :: x in sub ==> Explained(w, source, ItemsOf(w, k, source), x))
    requires edges == (if raised then Raise(sub) else sub) && e in edges
    ensures Explained(w, source, items, e)
  {
    var i :| 0 <= i < |edges| && edges[i] == e;
    assert sub[i] in sub;
    ViaRelation(w, source, k, raised, sub[i]);
  }

  lemma {:induction false} GatherExplained(w: World, source: Restriction, items: seq<Item>, visited: set<Key>)
    ensures var g := GatherItems(w, source, items, visited); forall e :: e in g.edges ==> Explained(w, source, items, e)
    decreases Left(w, visited), |items|
  {
    if items != [] {
      var g := GatherOne(w, source, items[0], visited);
      var h := GatherItems(w, source, items[1..], g.visited);
      GatherCons(w, source, items, visited);
      if items[0].Ref? && items[0].key !in visited && items[0].key in w.relations {
        var k, raised := items[0].key, items[0].raised;
        LeftDrops(w, visited, k);
        GatherExplained(w, source, ItemsOf(w, k, source), visited + {k});
        var sub := GatherItems(w, source, ItemsOf(w, k, source), visited + {k});
        LeftShrinks(w, visited + {k}, sub.visited);
        assert Refs(w, items, k, raised);
        forall e | e in g.edges
          ensures Explained(w, source, items, e)
        {
          SubExplained(w, source, items, k, raised, sub.edges, g.edges, e);
        }
      }
      GatherExplained(w, source, items[1..], g.visited);
      forall e | e in h.edges ensures Explained(w, source, items, e) { ExplainedMore(w, source, items[1..], items, e); }
    }
  }

  // ------------------------------------------------------------ the code

  /** The models the code accepts: validated, with operators that have operands and tuplesets of defined types. */
  ghost predicate ValidGraph(w: World) {
    ValidModel(w) && forall k :: k in w.relations ==> Traversable(w, k.0, w.relations[k].rewrite)
  }

  ghost predicate Traversable(w: World, typ: string, rw: Rewrite) {
    match rw
    case TupleToUserset(tupleset, _) =>
      (typ, tupleset) in w.relations && forall r :: r in w.relations[(typ, tupleset)].restrictions ==> r.typ in w.types
    case Union(children) => forall i :: 0 <= i < |children| ==> Traversable(w, typ, children[i])
    case Intersection(children) =>
      children != [] && forall i :: 0 <= i < |children| ==> Traversable(w, typ, children[i])
    case Difference(base, subtract) => Traversable(w, typ, base) && Traversable(w, typ, subtract)
    case _ => true
  }

  /** The search returns what the specification gathers. */
  ghost predicate Returns(w: World, source: Restriction, items: seq<Item>, visited: set<Key>, edges: seq<Edge>,
                          visited': set<Key>) {
    var g := GatherItems(w, source, items, visited);
    edges == g.edges && visited' == g.visited
  }

  /** At most one occurrence. */
  function OwnItem(own: seq<Edge>): seq<Item> {
    if own == [] then [] else [Own(own[0])]
  }

  /** The occurrence of a leaf comes before what its references gather. */
  lemma ReturnsOwn(w: World, source: Restriction, own: seq<Edge>, items: seq<Item>, visited: set<Key>,
                   edges: seq<Edge>, visited': set<Key>)
    requires |own| <= 1 && Returns(w, source, items, visited, edges, visited')
    ensures Returns(w, source, OwnItem(own) + items, visited, own + edges, visited')
  {
    var all := OwnItem(own) + items;
    if own == [] {
      assert all == items && own + edges == edges;
    } else {
      GatherCons(w, source, all, visited);
      assert all[1..] == items && own == [own[0]];
    }
  }

  /** getRelationshipEdges in pruned mode. */
  method RelationshipEdges(w: World, k: Key, source: Restriction, visited: set<Key>)
    returns (edges: seq<Edge>, visited': set<Key>)
    requires ValidGraph(w) && k in w.relations
    ensures Returns(w, source, [Ref(k, false)], visited, edges, visited')
    decreases Left(w, visited), 0
  {
    ghost var one := [Ref(k, false)];
    GatherCons(w, source, one, visited);
    assert one[1..] == [];
    if k in visited { return [], visited; }
    LeftDrops(w, visited, k);
    edges, visited' := RewriteEdges(w, k, source, w.relations[k].rewrite, visited + {k});
    assert edges + [] == edges;
  }

  /** getRelationshipEdgesWithTargetRewrite in pruned mode. */
  method RewriteEdges(w: World, k: Key, source: Restriction, rw: Rewrite, visited: set<Key>)
    returns (edges: seq<Edge>, visited': set<Key>)
    requires ValidGraph(w) && k in w.relations && RefsDefined(w, k.0, rw) && Traversable(w, k.0, rw)
    ensures Returns(w, source, Items(w, k, rw, source), visited, edges, visited')
    decreases Left(w, visited), 2, rw
  {
    match rw
    case This => edges, visited' := AssignedEdges(w, k, source, visited);
    case Computed(c) => edges, visited' := ComputedEdges(w, k, source, c, visited);
    case TupleToUserset(tupleset, computed) =>
      edges, visited' := TuplesetEdges(w, k, source, tupleset, computed, visited);
    case Union(children) => edges, visited' := UnionEdges(w, k, source, children, visited);
    case Intersection(children) =>
      edges, visited' := RewriteEdges(w, k, source, children[0], visited);
      GatherRaised(w, source, Items(w, k, children[0], source), visited);
      edges := RaiseFlags(edges);
    case Difference(base, _) =>
      edges, visited' := RewriteEdges(w, k, source, base, visited);
      GatherRaised(w, source, Items(w, k, base, source), visited);
      edges := RaiseFlags(edges);
  }

  /** Sets the flag of every edge. */
  method RaiseFlags(edges: seq<Edge>) returns (r: seq<Edge>)
    ensures r == Raise(edges)
  {
    r := edges;
    for i := 0 to |edges|
      invariant |r| == |edges| && r[..i] == Raise(edges)[..i] && r[i..] == edges[i..]
    {
      r := r[i := edges[i].(flagged := true)];
    }
  }

  method ComputedEdges(w: World, k: Key, source: Restriction, c: string, visited: set<Key>)
    returns (edges: seq<Edge>, visited': set<Key>)
    requires ValidGraph(w) && k in w.relations && (k.0, c) in w.relations
    ensures Returns(w, source, Items(w, k, Computed(c), source), visited, edges, visited')
    decreases Left(w, visited), 1
  {
    var own := if (k.0, c) == SourceKey(source) then [Edge(ComputedUsersetEdge, k, "", false)] else [];
    edges, visited' := RelationshipEdges(w, (k.0, c), source, visited);
    ReturnsOwn(w, source, own, [Ref((k.0, c), false)], visited, edges, visited');
    assert Items(w, k, Computed(c), source) == OwnItem(own) + [Ref((k.0, c), false)];
    edges := own + edges;
  }

  /** What was gathered so far, and the items still to come, make up the whole. */
  ghost predicate Pending(w: World, source: Restriction, all: seq<Item>, visited: set<Key>, edges: seq<Edge>,
                          visited': set<Key>, rest: seq<Item>) {
    var g, h := GatherItems(w, source, all, visited), GatherItems(w, source, rest, visited');
    g.edges == edges + h.edges && g.visited == h.visited && visited <= visited'
  }

  lemma PendingStep(w: World, source: Restriction, all: seq<Item>, visited: set<Key>, edges: seq<Edge>, v: set<Key>,
                    head: seq<Item>, rest: seq<Item>, more: seq<Edge>, v': set<Key>)
    requires Pending(w, source, all, visited, edges, v, head + rest) && Returns(w, source, head, v, more, v')
    ensures Pending(w, source, all, visited, edges + more, v', rest)
  {
    GatherConcat(w, source, head, rest, v);
    var h := GatherItems(w, source, rest, v');
    assert (edges + more) + h.edges == edges + (more + h.edges);
  }

  lemma PendingEnd(w: World, source: Restriction, all: seq<Item>, visited: set<Key>, edges: seq<Edge>,
                   visited': set<Key>)
    requires Pending(w, source, all, visited, edges, visited', [])
    ensures Returns(w, source, all, visited, edges, visited')
  {
  }

  lemma PendingStart(w: World, source: Restriction, all: seq<Item>, visited: set<Key>)
    ensures Pending(w, source, all, visited, [], visited, all)
  {
  }

  /** A directly assigned relation: an edge if it admits the source, and what the assigned usersets gather. */
  method AssignedEdges(w: World, k: Key, source: Restriction, visited: set<Key>)
    returns (edges: seq<Edge>, visited': set<Key>)
    requires ValidGraph(w) && k in w.relations
    ensures Returns(w, source, Items(w, k, This, source), visited, edges, visited')
    decreases Left(w, visited), 1, 1
  {
    var rs := w.relations[k].restrictions;
    var own: seq<Edge> := [];
    if source in rs || Public(source.typ) in rs { own := [Edge(DirectEdge, k, "", false)]; }
    edges, visited' := UsersetEdges(w, k, source, visited);
    ReturnsOwn(w, source, own, AssignedItems(rs), visited, edges, visited');
    assert Items(w, k, This, source) == OwnItem(own) + AssignedItems(rs);
    edges := own + edges;
  }

  method UsersetEdges(w: World, k: Key, source: Restriction, visited: set<Key>)
    returns (edges: seq<Edge>, visited': set<Key>)
    requires ValidGraph(w) && k in w.relations
    ensures Returns(w, source, AssignedItems(w.relations[k].restrictions), visited, edges, visited')
    decreases Left(w, visited), 1, 0
  {
    var rs := w.relations[k].restrictions;
    edges, visited' := [], visited;
    ghost var all := AssignedItems(rs);
    PendingStart(w, source, all, visited);
    assert rs[0..] == rs;
    for i := 0 to |rs|
      invariant Pending(w, source, all, visited, edges, visited', AssignedItems(rs[i..]))
    {
      AssignedStep(rs, i);
      if rs[i].Userset? {
        var key := (rs[i].typ, rs[i].relation);
        AssignedKey(rs, i);
        LeftShrinks(w, visited, visited');
        var more, v := RelationshipEdges(w, key, source, visited');
        PendingStep(w, source, all, visited, edges, visited', [Ref(key, false)], AssignedItems(rs[i + 1..]), more, v);
        edges, visited' := edges + more, v;
      }
    }
    PendingEnd(w, source, all, visited, edges, visited');
  }

  lemma AssignedStep(rs: seq<Restriction>, i: nat)
    requires i < |rs|
    ensures rs[i].Userset? ==>
      AssignedItems(rs[i..]) == [Ref((rs[i].typ, rs[i].relation), false)] + AssignedItems(rs[i + 1..])
    ensures !rs[i].Userset? ==> AssignedItems(rs[i..]) == AssignedItems(rs[i + 1..])
  {
    assert rs[i..][1..] == rs[i + 1..] && rs[i..][0] == rs[i];
  }

  lemma {:induction false} AssignedKey(rs: seq<Restriction>, i: nat)
    requires i < |rs| && rs[i].Userset?
    ensures (rs[i].typ, rs[i].relation) in UsersetKeys(rs)
  {
    if i > 0 { AssignedKey(rs[1..], i - 1); }
  }

  /**
   * A tuple-to-userset: per type of the tupleset an edge if it names the source, then what the relation
   * there gathers.
   */
  method TuplesetEdges(w: World, k: Key, source: Restriction, tupleset: string, computed: string, visited: set<Key>)
    returns (edges: seq<Edge>, visited': set<Key>)
    requires ValidGraph(w) && k in w.relations && (k.0, tupleset) in w.relations
    ensures Returns(w, source, Items(w, k, TupleToUserset(tupleset, computed), source), visited, edges, visited')
    decreases Left(w, visited), 1, 1
  {
    var rs := w.relations[(k.0, tupleset)].restrictions;
    edges, visited' := [], visited;
    ghost var all := ParentItems(w, k, tupleset, rs, computed, source);
    PendingStart(w, source, all, visited);
    assert rs[0..] == rs;
    for i := 0 to |rs|
      invariant Pending(w, source, all, visited, edges, visited',
        ParentItems(w, k, tupleset, rs[i..], computed, source))
    {
      assert rs[i..][1..] == rs[i + 1..];
      var key := (rs[i].typ, computed);
      ghost var rest := ParentItems(w, k, tupleset, rs[i + 1..], computed, source);
      LeftShrinks(w, visited, visited');
      var more, v := ParentEdges(w, k, source, tupleset, key, visited');
      PendingStep(w, source, all, visited, edges, visited', ParentItem(w, k, tupleset, key, source), rest, more, v);
      edges, visited' := edges + more, v;
    }
    PendingEnd(w, source, all, visited, edges, visited');
  }

  /** One type of the tupleset; a type that does not define the relation is skipped. */
  method ParentEdges(w: World, k: Key, source: Restriction, tupleset: string, key: Key, visited: set<Key>)
    returns (edges: seq<Edge>, visited': set<Key>)
    requires ValidGraph(w)
    ensures Returns(w, source, ParentItem(w, k, tupleset, key, source), visited, edges, visited')
    decreases Left(w, visited), 1, 0
  {
    if key !in w.relations { return [], visited; }
    var own: seq<Edge> := [];
    if key == SourceKey(source) {
      var involves := InvolvesIntersectionOrExclusion(w, key);
      own := [Edge(TupleToUsersetEdge, k, tupleset, involves.value)];
    }
    edges, visited' := RelationshipEdges(w, key, source, visited);
    ReturnsOwn(w, source, own, [Ref(key, false)], visited, edges, visited');
    assert ParentItem(w, k, tupleset, key, source) == OwnItem(own) + [Ref(key, false)];
    edges := own + edges;
  }

  method UnionEdges(w: World, k: Key, source: Restriction, children: seq<Rewrite>, visited: set<Key>)
    returns (edges: seq<Edge>, visited': set<Key>)
    requires ValidGraph(w) && k in w.relations && forall i :: 0 <= i < |children| ==>
      RefsDefined(w, k.0, children[i]) && Traversable(w, k.0, children[i])
    ensures Returns(w, source, ItemsAll(w, k, children, source), visited, edges, visited')
    decreases Left(w, visited), 2, children
  {
    edges, visited' := [], visited;
    ghost var all := ItemsAll(w, k, children, source);
    PendingStart(w, source, all, visited);
    assert children[0..] == children;
    for i := 0 to |children|
      invariant Pending(w, source, all, visited, edges, visited', ItemsAll(w, k, children[i..], source))
    {
      assert children[i..][0] == children[i] && children[i..][1..] == children[i + 1..];
      LeftShrinks(w, visited, visited');
      var more, v := RewriteEdges(w, k, source, children[i], visited');
      PendingStep(w, source, all, visited, edges, visited', Items(w, k, children[i], source),
        ItemsAll(w, k, children[i + 1..], source), more, v);
      edges, visited' := edges + more, v;
    }
    PendingEnd(w, source, all, visited, edges, visited');
  }

  // ------------------------------------------------------------ the main theorem

  /** Up to flags there is one edge per matching place on pruned paths, and each edge is the edge of such a place. */
  ghost predicate PrunedFor(w: World, k: Key, source: Restriction, edges: seq<Edge>) {
    && (forall e :: e in edges ==> Reported(w, k, source, e))
    && exists places :: EveryPlaceOnce(w, k, source, places) && Bag(edges) == Bag(EdgesAt(w, source, places))
  }

  /**
   * GetPrunedRelationshipEdges. `order` lists every relation on a pruned path once, and `places` every matching
   * place in those relations: up to flags there is one edge for each of them. Each edge is flagged exactly if
   * its place, or the pruned path it was found by, is inside an intersection or exclusion or leads to one.
   */
  method GetPrunedRelationshipEdges(w: World, k: Key, source: Restriction)
    returns (edges: Option<seq<Edge>>, ghost order: seq<Key>, ghost places: seq<Place>)
    requires ValidGraph(w)
    ensures edges.None? <==> k !in w.relations
    ensures edges.Some? ==>
      (forall i, j :: 0 <= i < j < |order| ==> order[i] != order[j]) && forall j :: j in order <==> OnPath(w, k, j)
    ensures edges.Some? ==> EveryPlaceOnce(w, k, source, places) && Bag(edges.value) == Bag(EdgesAt(w, source, places))
    ensures edges.Some? ==> forall e :: e in edges.value ==> Reported(w, k, source, e)
    ensures edges.Some? ==> PrunedFor(w, k, source, edges.value)
  {
    order, places := [], [];
    if k !in w.relations { return None, [], []; }
    var es, visited := RelationshipEdges(w, k, source, {});
    order, places := Gathered(w, source, k, es);
    return Some(es), order, places;
  }

  /** What the search gathers from the target on. */
  lemma Gathered(w: World, source: Restriction, k: Key, edges: seq<Edge>) returns (order: seq<Key>, places: seq<Place>)
    requires k in w.relations && edges == GatherItems(w, source, [Ref(k, false)], {}).edges
    ensures forall i, j :: 0 <= i < j < |order| ==> order[i] != order[j]
    ensures forall j :: j in order <==> OnPath(w, k, j)
    ensures EveryPlaceOnce(w, k, source, places) && Bag(edges) == Bag(EdgesAt(w, source, places))
    ensures forall e :: e in edges ==> Reported(w, k, source, e)
  {
    order := GatherItems(w, source, [Ref(k, false)], {}).order;
    AllOnce(w, source, k);
    OnlyRelations(w, source, k);
    places := OrderPlaces(w, source, order);
    AllReported(w, source, k);
  }

  lemma AllOnce(w: World, source: Restriction, k: Key)
    requires k in w.relations
    ensures var order := GatherItems(w, source, [Ref(k, false)], {}).order;
      (forall i, j :: 0 <= i < j < |order| ==> order[i] != order[j]) && forall j :: j in order <==> OnPath(w, k, j)
  {
    GatherMarks(w, source, [Ref(k, false)], {});
    forall j ensures j in GatherItems(w, source, [Ref(k, false)], {}).order <==> OnPath(w, k, j) {
      OrderedOnPath(w, source, k, j);
      OnPathOrdered(w, source, k, j);
    }
  }

  lemma OnlyRelations(w: World, source: Restriction, k: Key)
    ensures var g := GatherItems(w, source, [Ref(k, false)], {}); Bag(g.edges) == Bag(OwnedAll(w, source, g.order))
  {
    var one := [Ref(k, false)];
    GatherCounts(w, source, one, {});
    assert one[1..] == [] && Owned(one) == [];
  }

  lemma AllReported(w: World, source: Restriction, k: Key)
    ensures var g := GatherItems(w, source, [Ref(k, false)], {}); forall e :: e in g.edges ==> Reported(w, k, source, e)
  {
    var one := [Ref(k, false)];
    GatherExplained(w, source, one, {});
    forall e | e in GatherItems(w, source, one, {}).edges ensures Reported(w, k, source, e) {
      assert Explained(w, source, one, e);
      var c, r :| Refs(w, one, c, r) && Via(w, source, c, r, e);
      ViaReported(w, source, k, e);
    }
  }

  /** An occurrence among the items is a matching place. */
  lemma ViaReported(w: World, source: Restriction, k: Key, e: Edge)
    requires Via(w, source, k, false, e)
    ensures Reported(w, k, source, e)
  {
    var f, o :| Path(w, k, e.target, f) && Own(o) in ItemsOf(w, e.target, source) &&
      e == o.(flagged := false || f || o.flagged);
    var places := RelationPlaces(w, source, e.target);
    OwnedHas(ItemsOf(w, e.target, source), o);
    var i :| 0 <= i < |places| && EdgesAt(w, source, places)[i] == o;
    assert places[i] in places && places[i].relation == e.target;
  }

  lemma OrderedOnPath(w: World, source: Restriction, k: Key, j: Key)
    ensures j in GatherItems(w, source, [Ref(k, false)], {}).order ==> OnPath(w, k, j)
  {
    var one := [Ref(k, false)];
    GatherLeads(w, source, one, {});
    if j in GatherItems(w, source, one, {}).order {
      assert ItemsLead(w, source, one, j);
      var c, r :| Refs(w, one, c, r) && OnPath(w, c, j);
    }
  }

  lemma OnPathOrdered(w: World, source: Restriction, k: Key, j: Key)
    requires k in w.relations
    ensures OnPath(w, k, j) ==> j in GatherItems(w, source, [Ref(k, false)], {}).order
  {
    var one := [Ref(k, false)];
    var g := GatherItems(w, source, one, {});
    GatherMarks(w, source, one, {});
    GatherClosed(w, source, one, {});
    assert Refs(w, one, k, false);
    if OnPath(w, k, j) {
      var f := Path(w, k, j, true);
      var n: nat :| PathIn(w, k, j, f, n);
      StaysInside(w, source, g.visited, k, j, f, n);
    }
  }

  lemma {:induction false} StaysInside(w: World, source: Restriction, inside: set<Key>, a: Key, b: Key, f: bool, n: nat)
    requires (forall j :: j in inside ==> ItemsMarked(w, source, ItemsOf(w, j, source), inside)) && a in inside
    requires PathIn(w, a, b, f, n)
    ensures b in inside
    decreases n
  {
    if n > 0 {
      var c, r, f' := PathStep(w, a, b, f, n);
      RefsPruned(w, source, a, c, r);
      StaysInside(w, source, inside, c, b, f', n - 1);
    }
  }
}
