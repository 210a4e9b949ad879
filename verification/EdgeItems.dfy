/** The items of a pruned rewrite, and that they are exactly its matching places and its references. */
module EdgeItems {
  import opened Options
  import opened Model
  import opened Involves
  import opened EdgePlaces

  /**
   * An item of a pruned rewrite: a matching occurrence of the source at a leaf, or a reference to another
   * relation, flagged or raised if it is below an intersection or an exclusion.
   */
  datatype Item = Own(edge: Edge) | Ref(key: Key, raised: bool)

  function RaiseItems(items: seq<Item>): (r: seq<Item>)
    ensures |r| == |items|
    ensures forall i :: 0 <= i < |items| ==>
      r[i] == match items[i] case Own(e) => Own(e.(flagged := true)) case Ref(k, _) => Ref(k, true)
  {
    seq(|items|, i requires 0 <= i < |items| =>
      match items[i]
      case Own(e) => Own(e.(flagged := true))
      case Ref(k, _) => Ref(k, true))
  }

  function AssignedItems(restrictions: seq<Restriction>): seq<Item> {
    if restrictions == [] then []
    else
      var r := restrictions[0];
      (if r.Userset? then [Ref((r.typ, r.relation), false)] else []) + AssignedItems(restrictions[1..])
  }

  /** Per type of the tupleset that defines the relation: an occurrence if it is the source, and a reference. */
  ghost function ParentItems(w: World, k: Key, tupleset: string, restrictions: seq<Restriction>, computed: string,
                             source: Restriction): seq<Item> {
    if restrictions == [] then []
    else
      ParentItem(w, k, tupleset, (restrictions[0].typ, computed), source) +
      ParentItems(w, k, tupleset, restrictions[1..], computed, source)
  }

  ghost function ParentItem(w: World, k: Key, tupleset: string, key: Key, source: Restriction): seq<Item> {
    if key !in w.relations then []
    else (if key == SourceKey(source) then [Own(Edge(TupleToUsersetEdge, k, tupleset, OperatorAhead(w, key, BOTH)))]
      else []) + [Ref(key, false)]
  }

  /** The items of a rewrite of `k`: of an intersection only the first operand, of an exclusion only the base. */
  ghost function Items(w: World, k: Key, rw: Rewrite, source: Restriction): seq<Item>
    requires k in w.relations
  {
    match rw
    case This =>
      var rs := w.relations[k].restrictions;
      (if source in rs || Public(source.typ) in rs then [Own(Edge(DirectEdge, k, "", false))]
        else []) + AssignedItems(rs)
    case Computed(c) =>
      (if (k.0, c) == SourceKey(source) then [Own(Edge(ComputedUsersetEdge, k, "", false))]
        else []) + [Ref((k.0, c), false)]
    case TupleToUserset(tupleset, computed) =>
      ParentItems(w, k, tupleset, TuplesetTypes(w, k.0, tupleset), computed, source)
    case Union(children) => ItemsAll(w, k, children, source)
    case Intersection(children) => if children == [] then [] else RaiseItems(Items(w, k, children[0], source))
    case Difference(base, _) => RaiseItems(Items(w, k, base, source))
  }

  ghost function ItemsAll(w: World, k: Key, children: seq<Rewrite>, source: Restriction): seq<Item>
    requires k in w.relations
  {
    if children == [] then [] else Items(w, k, children[0], source) + ItemsAll(w, k, children[1..], source)
  }

  ghost function ItemsOf(w: World, k: Key, source: Restriction): seq<Item> {
    if k in w.relations then Items(w, k, w.relations[k].rewrite, source) else []
  }

  function Raise(edges: seq<Edge>): (r: seq<Edge>)
    ensures |r| == |edges| && forall i :: 0 <= i < |edges| ==> r[i] == edges[i].(flagged := true)
  {
    seq(|edges|, i requires 0 <= i < |edges| => edges[i].(flagged := true))
  }

  /** The occurrences among the items. */
  function Owned(items: seq<Item>): seq<Edge> {
    if items == [] then [] else (if items[0].Own? then [items[0].edge] else []) + Owned(items[1..])
  }

  // ------------------------------------------------------------ the references are those of kept positions

  lemma {:induction false} AssignedRefs(rs: seq<Restriction>, c: Key, r: bool)
    ensures Ref(c, r) in AssignedItems(rs) <==> !r && Userset(c.0, c.1) in rs
  {
    if rs != [] {
      AssignedRefs(rs[1..], c, r);
      assert rs == [rs[0]] + rs[1..];
    }
  }

  lemma {:induction false} ParentRefs(w: World, k: Key, tupleset: string, rs: seq<Restriction>, computed: string,
                                      source: Restriction, c: Key, r: bool)
    requires c in w.relations
    ensures Ref(c, r) in ParentItems(w, k, tupleset, rs, computed, source) <==>
      !r && c.1 == computed && exists t :: t in rs && t.typ == c.0
    decreases rs
  {
    if rs != [] {
      ParentRefs(w, k, tupleset, rs[1..], computed, source, c, r);
      assert rs == [rs[0]] + rs[1..];
      if c == (rs[0].typ, computed) { assert rs[0] in rs; }
    }
  }

  lemma {:induction false} ItemsAllHas(w: World, k: Key, children: seq<Rewrite>, source: Restriction, x: Item)
    requires k in w.relations
    ensures x in ItemsAll(w, k, children, source) <==>
      exists i :: 0 <= i < |children| && x in Items(w, k, children[i], source)
    decreases children
  {
    if children != [] {
      ItemsAllHas(w, k, children[1..], source, x);
      forall i | 0 < i < |children| ensures children[i] == children[1..][i - 1] {}
    }
  }

  lemma RaisedRefs(items: seq<Item>, c: Key, r: bool)
    ensures Ref(c, r) in RaiseItems(items) <==> r && exists s :: Ref(c, s) in items
  {
    var up := RaiseItems(items);
    if Ref(c, r) in up {
      var i :| 0 <= i < |up| && up[i] == Ref(c, r);
      assert items[i] == Ref(c, items[i].raised);
    }
    if s :| r && Ref(c, s) in items {
      var i :| 0 <= i < |items| && items[i] == Ref(c, s);
      assert up[i] == Ref(c, true);
    }
  }

  /** A leaf refers where it stands. */
  lemma LeafRefersAt(w: World, k: Key, leaf: Rewrite, c: Key, r: bool)
    requires k in w.relations && Operands(leaf) == []
    ensures RefersInside(w, k, leaf, c, r) <==> !r && LeafRefers(w, k, leaf, c)
  {
    if !r && LeafRefers(w, k, leaf, c) { assert RefersAt(w, k, leaf, [], c, r); }
  }

  /** A set operator refers where an operand that pruning keeps does. */
  lemma OperandRefers(w: World, k: Key, rw: Rewrite, i: nat, c: Key, s: bool)
    requires k in w.relations && i < |Operands(rw)| && (rw.Union? || i == 0)
    requires RefersInside(w, k, Operands(rw)[i], c, s)
    ensures RefersInside(w, k, rw, c, !rw.Union? || s)
  {
    var pos :| RefersAt(w, k, Operands(rw)[i], pos, c, s);
    assert ([i] + pos)[1..] == pos;
    assert RefersAt(w, k, rw, [i] + pos, c, !rw.Union? || s);
  }

  lemma RefersByOperand(w: World, k: Key, rw: Rewrite, c: Key, r: bool) returns (i: nat, s: bool)
    requires k in w.relations && Operands(rw) != [] && RefersInside(w, k, rw, c, r)
    ensures i < |Operands(rw)| && (rw.Union? || i == 0) && RefersInside(w, k, Operands(rw)[i], c, s)
    ensures r == (!rw.Union? || s)
  {
    var pos :| RefersAt(w, k, rw, pos, c, r);
    i, s := pos[0], Inside(Operands(rw)[pos[0]], pos[1..]);
    assert RefersAt(w, k, Operands(rw)[i], pos[1..], c, s);
  }

  /** The references among the items are exactly those of the positions that pruning keeps. */
  lemma {:induction false} ItemReferences(w: World, k: Key, rw: Rewrite, source: Restriction, c: Key, r: bool)
    requires k in w.relations && c in w.relations
    ensures Ref(c, r) in Items(w, k, rw, source) <==> RefersInside(w, k, rw, c, r)
    decreases rw
  {
    if Operands(rw) == [] {
      LeafRefersAt(w, k, rw, c, r);
      match rw
      case This => AssignedRefs(w.relations[k].restrictions, c, r);
      case TupleToUserset(tupleset, computed) =>
        ParentRefs(w, k, tupleset, TuplesetTypes(w, k.0, tupleset), computed, source, c, r);
      case _ =>
    } else {
      forall i, s | 0 <= i < |Operands(rw)|
        ensures Ref(c, s) in Items(w, k, Operands(rw)[i], source) <==> RefersInside(w, k, Operands(rw)[i], c, s)
      {
        ItemReferences(w, k, Operands(rw)[i], source, c, s);
      }
      OperatorReferences(w, k, rw, source, c, r);
    }
  }

  lemma OperatorReferences(w: World, k: Key, rw: Rewrite, source: Restriction, c: Key, r: bool)
    requires k in w.relations && c in w.relations && Operands(rw) != []
    requires forall i, s :: 0 <= i < |Operands(rw)| ==>
      (Ref(c, s) in Items(w, k, Operands(rw)[i], source) <==> RefersInside(w, k, Operands(rw)[i], c, s))
    ensures Ref(c, r) in Items(w, k, rw, source) <==> RefersInside(w, k, rw, c, r)
  {
    if RefersInside(w, k, rw, c, r) {
      var i, s := RefersByOperand(w, k, rw, c, r);
      assert Ref(c, s) in Items(w, k, Operands(rw)[i], source);
      OperandItem(w, k, rw, source, i, c, s);
    }
    if Ref(c, r) in Items(w, k, rw, source) {
      var i, s := ItemOperand(w, k, rw, source, c, r);
      OperandRefers(w, k, rw, i, c, s);
    }
  }

  lemma OperandItem(w: World, k: Key, rw: Rewrite, source: Restriction, i: nat, c: Key, s: bool)
    requires k in w.relations && i < |Operands(rw)| && (rw.Union? || i == 0)
    requires Ref(c, s) in Items(w, k, Operands(rw)[i], source)
    ensures Ref(c, !rw.Union? || s) in Items(w, k, rw, source)
  {
    if rw.Union? {
      ItemsAllHas(w, k, rw.children, source, Ref(c, s));
    } else {
      RaisedRefs(Items(w, k, Operands(rw)[0], source), c, true);
    }
  }

  lemma ItemOperand(w: World, k: Key, rw: Rewrite, source: Restriction, c: Key, r: bool) returns (i: nat, s: bool)
    requires k in w.relations && Operands(rw) != [] && Ref(c, r) in Items(w, k, rw, source)
    ensures i < |Operands(rw)| && (rw.Union? || i == 0) && Ref(c, s) in Items(w, k, Operands(rw)[i], source)
    ensures r == (!rw.Union? || s)
  {
    if rw.Union? {
      ItemsAllHas(w, k, rw.children, source, Ref(c, r));
      i :| i < |rw.children| && Ref(c, r) in Items(w, k, rw.children[i], source);
      s := r;
    } else {
      RaisedRefs(Items(w, k, Operands(rw)[0], source), c, r);
      i := 0;
      s :| Ref(c, s) in Items(w, k, Operands(rw)[0], source);
    }
  }

  // ------------------------------------------------------------ the occurrences are the matching places

  lemma {:induction false} OwnedConcat(a: seq<Item>, b: seq<Item>)
    ensures Owned(a + b) == Owned(a) + Owned(b)
  {
    if a == [] {
      assert a + b == b;
    } else {
      assert (a + b)[0] == a[0] && (a + b)[1..] == a[1..] + b;
      OwnedConcat(a[1..], b);
    }
  }

  lemma {:induction false} OwnedRaised(items: seq<Item>)
    ensures Owned(RaiseItems(items)) == Raise(Owned(items))
  {
    if items != [] {
      assert RaiseItems(items)[1..] == RaiseItems(items[1..]);
      OwnedRaised(items[1..]);
    }
  }

  /** A position in a rewrite, and for a tuple-to-userset a type restriction of the tupleset. */
  datatype Spot = Spot(pos: seq<nat>, index: nat)

  predicate SpotMatches(w: World, k: Key, rw: Rewrite, source: Restriction, s: Spot)
    requires k in w.relations
  {
    Kept(rw, s.pos) && Part(rw, s.pos).Some? && LeafMatches(w, k, Part(rw, s.pos).value, s.index, source)
  }

  ghost function SpotEdge(w: World, k: Key, rw: Rewrite, source: Restriction, s: Spot): Edge
    requires k in w.relations && SpotMatches(w, k, rw, source, s)
  {
    LeafEdge(w, k, Part(rw, s.pos).value, Inside(rw, s.pos), source)
  }

  /** The spots match, are pairwise different, and have the given edges. */
  ghost predicate HaveEdges(w: World, k: Key, rw: Rewrite, source: Restriction, spots: seq<Spot>, edges: seq<Edge>)
    requires k in w.relations
  {
    && |spots| == |edges|
    && (forall i :: 0 <= i < |spots| ==>
         SpotMatches(w, k, rw, source, spots[i]) && edges[i] == SpotEdge(w, k, rw, source, spots[i]))
    && (forall i, j :: 0 <= i < j < |spots| ==> spots[i] != spots[j])
  }

  /** The spots list every match of the rewrite. */
  ghost predicate ListsAll(w: World, k: Key, rw: Rewrite, source: Restriction, spots: seq<Spot>)
    requires k in w.relations
  {
    forall s :: SpotMatches(w, k, rw, source, s) ==> s in spots
  }

  /** The spots of operand `i`, seen from the operator. */
  function Lifted(i: nat, spots: seq<Spot>): (r: seq<Spot>)
    ensures |r| == |spots| && forall j :: 0 <= j < |r| ==> r[j] == Spot([i] + spots[j].pos, spots[j].index)
  {
    seq(|spots|, j requires 0 <= j < |spots| => Spot([i] + spots[j].pos, spots[j].index))
  }

  /** A spot of an operand that pruning keeps is a spot of the operator, flagged below an intersection or exclusion. */
  lemma LiftedSpot(w: World, k: Key, rw: Rewrite, source: Restriction, i: nat, s: Spot)
    requires k in w.relations && i < |Operands(rw)| && (rw.Union? || i == 0)
    requires SpotMatches(w, k, Operands(rw)[i], source, s)
    ensures var up := Spot([i] + s.pos, s.index);
      SpotMatches(w, k, rw, source, up) &&
        var e := SpotEdge(w, k, Operands(rw)[i], source, s);
        SpotEdge(w, k, rw, source, up) == if rw.Union? then e else e.(flagged := true)
  {
    assert ([i] + s.pos)[1..] == s.pos;
  }

  /** And every spot of the operator is one of those. */
  lemma LoweredSpot(w: World, k: Key, rw: Rewrite, source: Restriction, s: Spot)
    requires k in w.relations && Operands(rw) != [] && SpotMatches(w, k, rw, source, s)
    ensures s.pos != [] && s.pos[0] < |Operands(rw)| && (rw.Union? || s.pos[0] == 0)
    ensures SpotMatches(w, k, Operands(rw)[s.pos[0]], source, Spot(s.pos[1..], s.index))
  {
  }

  lemma LiftedEdges(w: World, k: Key, rw: Rewrite, source: Restriction, i: nat, spots: seq<Spot>, edges: seq<Edge>)
    requires k in w.relations && i < |Operands(rw)| && (rw.Union? || i == 0)
    requires HaveEdges(w, k, Operands(rw)[i], source, spots, edges)
    ensures HaveEdges(w, k, rw, source, Lifted(i, spots), if rw.Union? then edges else Raise(edges))
  {
    var up := Lifted(i, spots);
    forall j | 0 <= j < |up|
      ensures SpotMatches(w, k, rw, source, up[j])
      ensures SpotEdge(w, k, rw, source, up[j]) == (if rw.Union? then edges else Raise(edges))[j]
    {
      LiftedSpot(w, k, rw, source, i, spots[j]);
    }
    forall j, l | 0 <= j < l < |up| ensures up[j] != up[l] {
      assert ([i] + spots[j].pos)[1..] == spots[j].pos && ([i] + spots[l].pos)[1..] == spots[l].pos;
    }
  }

  lemma LiftedHas(i: nat, spots: seq<Spot>, s: Spot)
    requires s.pos != [] && s.pos[0] == i && Spot(s.pos[1..], s.index) in spots
    ensures s in Lifted(i, spots)
  {
    var j :| 0 <= j < |spots| && spots[j] == Spot(s.pos[1..], s.index);
    assert [i] + s.pos[1..] == s.pos;
    assert Lifted(i, spots)[j] == s;
  }

  lemma EdgesConcat(w: World, k: Key, rw: Rewrite, source: Restriction, a: seq<Spot>, b: seq<Spot>, ea: seq<Edge>,
                    eb: seq<Edge>)
    requires k in w.relations && HaveEdges(w, k, rw, source, a, ea) && HaveEdges(w, k, rw, source, b, eb)
    requires forall s :: s in a ==> s !in b
    ensures HaveEdges(w, k, rw, source, a + b, ea + eb)
  {
    var all := a + b;
    forall i, j | 0 <= i < j < |all| ensures all[i] != all[j] {
      if i < |a| && j >= |a| { assert all[i] in a && all[j] in b; }
    }
  }

  /** At most one spot at a leaf. */
  function LeafSpots(w: World, k: Key, leaf: Rewrite, source: Restriction, i: nat): seq<Spot>
    requires k in w.relations
  {
    if LeafMatches(w, k, leaf, i, source) then [Spot([], i)] else []
  }

  ghost function LeafEdges(w: World, k: Key, leaf: Rewrite, source: Restriction, i: nat): seq<Edge>
    requires k in w.relations
  {
    if LeafMatches(w, k, leaf, i, source) then [LeafEdge(w, k, leaf, false, source)] else []
  }

  lemma LeafHas(w: World, k: Key, leaf: Rewrite, source: Restriction, i: nat)
    requires k in w.relations && Operands(leaf) == []
    ensures HaveEdges(w, k, leaf, source, LeafSpots(w, k, leaf, source, i), LeafEdges(w, k, leaf, source, i))
    ensures forall s :: SpotMatches(w, k, leaf, source, s) && s.index == i ==> s in LeafSpots(w, k, leaf, source, i)
  {
  }

  lemma AssignedOwned(w: World, k: Key, source: Restriction)
    requires k in w.relations
    ensures Owned(Items(w, k, This, source)) == LeafEdges(w, k, This, source, 0)
  {
    var rs := w.relations[k].restrictions;
    var own := if source in rs || Public(source.typ) in rs then [Own(Edge(DirectEdge, k, "", false))] else [];
    NoOwnAssigned(rs);
    OwnedConcat(own, AssignedItems(rs));
  }

  lemma ComputedOwned(w: World, k: Key, c: string, source: Restriction)
    requires k in w.relations
    ensures Owned(Items(w, k, Computed(c), source)) == LeafEdges(w, k, Computed(c), source, 0)
  {
    var own := if (k.0, c) == SourceKey(source) then [Own(Edge(ComputedUsersetEdge, k, "", false))] else [];
    OwnedConcat(own, [Ref((k.0, c), false)]);
  }

  lemma ParentOwned(w: World, k: Key, rw: Rewrite, source: Restriction, i: nat)
    requires k in w.relations && rw.TupleToUserset? && i < |TuplesetTypes(w, k.0, rw.tupleset)|
    ensures var key := (TuplesetTypes(w, k.0, rw.tupleset)[i].typ, rw.computed);
      Owned(ParentItem(w, k, rw.tupleset, key, source)) == LeafEdges(w, k, rw, source, i)
  {
    var key := (TuplesetTypes(w, k.0, rw.tupleset)[i].typ, rw.computed);
    if key in w.relations && key == SourceKey(source) {
      var own := Own(Edge(TupleToUsersetEdge, k, rw.tupleset, OperatorAhead(w, key, BOTH)));
      OwnedConcat([own], [Ref(key, false)]);
    }
  }

  /** The occurrences among the items of a rewrite are exactly its matching places, one each. */
  lemma {:induction false} ItemSpots(w: World, k: Key, rw: Rewrite, source: Restriction) returns (spots: seq<Spot>)
    requires k in w.relations
    ensures HaveEdges(w, k, rw, source, spots, Owned(Items(w, k, rw, source)))
    ensures ListsAll(w, k, rw, source, spots)
    decreases rw, 0
  {
    match rw
    case This =>
      spots := LeafSpots(w, k, rw, source, 0);
      LeafHas(w, k, rw, source, 0);
      AssignedOwned(w, k, source);
    case Computed(c) =>
      spots := LeafSpots(w, k, rw, source, 0);
      LeafHas(w, k, rw, source, 0);
      ComputedOwned(w, k, c, source);
    case TupleToUserset(tupleset, computed) =>
      spots := ParentSpots(w, k, rw, source, 0);
      assert TuplesetTypes(w, k.0, tupleset)[0..] == TuplesetTypes(w, k.0, tupleset);
    case Union(children) =>
      spots := UnionSpots(w, k, rw, source, 0);
      assert children[0..] == children;
      UnionListed(w, k, rw, source, spots);
    case Intersection(children) =>
      if children == [] {
        spots := [];
      } else {
        spots := FirstSpots(w, k, rw, source);
      }
    case Difference(base, _) => spots := FirstSpots(w, k, rw, source);
  }

  lemma {:induction false} FirstSpots(w: World, k: Key, rw: Rewrite, source: Restriction) returns (spots: seq<Spot>)
    requires k in w.relations && Operands(rw) != [] && !rw.Union?
    ensures HaveEdges(w, k, rw, source, spots, Owned(Items(w, k, rw, source)))
    ensures ListsAll(w, k, rw, source, spots)
    decreases Operands(rw)[0], 1
  {
    var below := ItemSpots(w, k, Operands(rw)[0], source);
    spots := Lifted(0, below);
    LiftedEdges(w, k, rw, source, 0, below, Owned(Items(w, k, Operands(rw)[0], source)));
    OwnedRaised(Items(w, k, Operands(rw)[0], source));
    forall s | SpotMatches(w, k, rw, source, s) ensures s in spots {
      LoweredSpot(w, k, rw, source, s);
      LiftedHas(0, below, s);
    }
  }

  /** The spots of the operands of a union from `i` on. */
  lemma {:induction false} UnionSpots(w: World, k: Key, rw: Rewrite, source: Restriction, i: nat)
    returns (spots: seq<Spot>)
    requires k in w.relations && rw.Union? && i <= |rw.children|
    ensures HaveEdges(w, k, rw, source, spots, Owned(ItemsAll(w, k, rw.children[i..], source)))
    ensures forall s :: s in spots ==> s.pos != [] && s.pos[0] >= i
    ensures forall s :: SpotMatches(w, k, rw, source, s) && s.pos != [] && s.pos[0] >= i ==> s in spots
    decreases rw, 0, |rw.children| - i
  {
    if i == |rw.children| {
      spots := [];
    } else {
      assert rw.children[i..][0] == rw.children[i] && rw.children[i..][1..] == rw.children[i + 1..];
      var below := ItemSpots(w, k, rw.children[i], source);
      var rest := UnionSpots(w, k, rw, source, i + 1);
      spots := Lifted(i, below) + rest;
      UnionEdges(w, k, rw, source, i, below, rest);
      forall s | SpotMatches(w, k, rw, source, s) && s.pos != [] && s.pos[0] >= i ensures s in spots {
        UnionSpot(w, k, rw, source, i, below, s);
      }
    }
  }

  lemma UnionEdges(w: World, k: Key, rw: Rewrite, source: Restriction, i: nat, below: seq<Spot>, rest: seq<Spot>)
    requires k in w.relations && rw.Union? && i < |rw.children|
    requires HaveEdges(w, k, rw.children[i], source, below, Owned(Items(w, k, rw.children[i], source)))
    requires HaveEdges(w, k, rw, source, rest, Owned(ItemsAll(w, k, rw.children[i + 1..], source)))
    requires forall s :: s in rest ==> s.pos != [] && s.pos[0] >= i + 1
    ensures HaveEdges(w, k, rw, source, Lifted(i, below) + rest, Owned(ItemsAll(w, k, rw.children[i..], source)))
  {
    assert rw.children[i..][0] == rw.children[i] && rw.children[i..][1..] == rw.children[i + 1..];
    var head, tail := Items(w, k, rw.children[i], source), ItemsAll(w, k, rw.children[i + 1..], source);
    LiftedEdges(w, k, rw, source, i, below, Owned(head));
    EdgesConcat(w, k, rw, source, Lifted(i, below), rest, Owned(head), Owned(tail));
    OwnedConcat(head, tail);
  }

  lemma UnionSpot(w: World, k: Key, rw: Rewrite, source: Restriction, i: nat, below: seq<Spot>, s: Spot)
    requires k in w.relations && rw.Union? && i < |rw.children| && ListsAll(w, k, rw.children[i], source, below)
    requires SpotMatches(w, k, rw, source, s) && s.pos != []
    ensures s.pos[0] == i ==> s in Lifted(i, below)
  {
    LoweredSpot(w, k, rw, source, s);
    if s.pos[0] == i { LiftedHas(i, below, s); }
  }

  lemma UnionListed(w: World, k: Key, rw: Rewrite, source: Restriction, spots: seq<Spot>)
    requires k in w.relations && rw.Union?
    requires forall s :: SpotMatches(w, k, rw, source, s) && s.pos != [] && s.pos[0] >= 0 ==> s in spots
    ensures ListsAll(w, k, rw, source, spots)
  {
  }

  lemma {:induction false} NoOwnAssigned(rs: seq<Restriction>)
    ensures Owned(AssignedItems(rs)) == []
  {
    if rs != [] {
      NoOwnAssigned(rs[1..]);
      var head := if rs[0].Userset? then [Ref((rs[0].typ, rs[0].relation), false)] else [];
      OwnedConcat(head, AssignedItems(rs[1..]));
    }
  }

  /** The spots of the restrictions of a tupleset from `i` on. */
  lemma {:induction false} ParentSpots(w: World, k: Key, rw: Rewrite, source: Restriction, i: nat)
    returns (spots: seq<Spot>)
    requires k in w.relations && rw.TupleToUserset? && i <= |TuplesetTypes(w, k.0, rw.tupleset)|
    ensures var rs := TuplesetTypes(w, k.0, rw.tupleset);
      HaveEdges(w, k, rw, source, spots, Owned(ParentItems(w, k, rw.tupleset, rs[i..], rw.computed, source)))
    ensures forall s :: s in spots ==> s.index >= i
    ensures forall s :: SpotMatches(w, k, rw, source, s) && s.index >= i ==> s in spots
    decreases |TuplesetTypes(w, k.0, rw.tupleset)| - i
  {
    var rs := TuplesetTypes(w, k.0, rw.tupleset);
    if i == |rs| {
      spots := [];
    } else {
      assert rs[i..][0] == rs[i] && rs[i..][1..] == rs[i + 1..];
      var rest := ParentSpots(w, k, rw, source, i + 1);
      spots := LeafSpots(w, k, rw, source, i) + rest;
      LeafHas(w, k, rw, source, i);
      ParentOwned(w, k, rw, source, i);
      var tail := ParentItems(w, k, rw.tupleset, rs[i + 1..], rw.computed, source);
      EdgesConcat(w, k, rw, source, LeafSpots(w, k, rw, source, i), rest, LeafEdges(w, k, rw, source, i), Owned(tail));
      OwnedConcat(ParentItem(w, k, rw.tupleset, (rs[i].typ, rw.computed), source), tail);
    }
  }

  lemma {:induction false} OwnedHas(items: seq<Item>, e: Edge)
    ensures Own(e) in items <==> e in Owned(items)
  {
    if items != [] {
      OwnedHas(items[1..], e);
      assert items == [items[0]] + items[1..];
    }
  }

  // ------------------------------------------------------------ over several relations

  /** The occurrences in the listed relations. */
  ghost function OwnedAll(w: World, source: Restriction, order: seq<Key>): seq<Edge> {
    if order == [] then [] else Owned(ItemsOf(w, order[0], source)) + OwnedAll(w, source, order[1..])
  }

  /** The places list every match in the relations exactly once, and have the given edges. */
  ghost predicate ListsPlaces(w: World, source: Restriction, order: seq<Key>, places: seq<Place>, edges: seq<Edge>) {
    && (forall i :: 0 <= i < |places| ==> Matches(w, source, places[i]))
    && (forall i, j :: 0 <= i < j < |places| ==> places[i] != places[j])
    && (forall p :: p in places <==> Matches(w, source, p) && p.relation in order)
    && edges == EdgesAt(w, source, places)
  }

  /** The places of one relation. */
  function PlacesIn(k: Key, spots: seq<Spot>): (r: seq<Place>)
    ensures |r| == |spots| && forall i :: 0 <= i < |r| ==> r[i] == Place(k, spots[i].pos, spots[i].index)
  {
    seq(|spots|, i requires 0 <= i < |spots| => Place(k, spots[i].pos, spots[i].index))
  }

  lemma RelationPlaces(w: World, source: Restriction, k: Key) returns (places: seq<Place>)
    ensures ListsPlaces(w, source, [k], places, Owned(ItemsOf(w, k, source)))
  {
    places := [];
    if k in w.relations {
      var spots := ItemSpots(w, k, w.relations[k].rewrite, source);
      places := PlacesIn(k, spots);
      SpotPlaces(w, source, k, spots, Owned(ItemsOf(w, k, source)));
      forall p ensures p in places <==> Matches(w, source, p) && p.relation == k { PlacesHave(w, source, k, spots, p); }
    }
  }

  lemma SpotPlaces(w: World, source: Restriction, k: Key, spots: seq<Spot>, edges: seq<Edge>)
    requires k in w.relations && HaveEdges(w, k, w.relations[k].rewrite, source, spots, edges)
    ensures forall i :: 0 <= i < |spots| ==> Matches(w, source, PlacesIn(k, spots)[i])
    ensures forall i, j :: 0 <= i < j < |spots| ==> PlacesIn(k, spots)[i] != PlacesIn(k, spots)[j]
    ensures edges == EdgesAt(w, source, PlacesIn(k, spots))
  {
    var places := PlacesIn(k, spots);
    forall i, j | 0 <= i < j < |places| ensures places[i] != places[j] { assert spots[i] != spots[j]; }
  }

  lemma PlacesHave(w: World, source: Restriction, k: Key, spots: seq<Spot>, p: Place)
    requires k in w.relations && ListsAll(w, k, w.relations[k].rewrite, source, spots)
    requires forall i :: 0 <= i < |spots| ==> SpotMatches(w, k, w.relations[k].rewrite, source, spots[i])
    ensures p in PlacesIn(k, spots) <==> Matches(w, source, p) && p.relation == k
  {
    if p in PlacesIn(k, spots) {
      var i :| 0 <= i < |spots| && PlacesIn(k, spots)[i] == p;
      assert SpotMatches(w, k, w.relations[k].rewrite, source, spots[i]);
    }
    if Matches(w, source, p) && p.relation == k {
      var s := Spot(p.pos, p.index);
      assert SpotMatches(w, k, w.relations[k].rewrite, source, s);
      var i :| 0 <= i < |spots| && spots[i] == s;
      assert PlacesIn(k, spots)[i] == p;
    }
  }

  lemma PlacesConcat(w: World, source: Restriction, k: Key, order: seq<Key>, a: seq<Place>, b: seq<Place>,
                     ea: seq<Edge>, eb: seq<Edge>)
    requires ListsPlaces(w, source, [k], a, ea) && ListsPlaces(w, source, order, b, eb) && k !in order
    ensures ListsPlaces(w, source, [k] + order, a + b, ea + eb)
  {
    var all := a + b;
    forall i, j | 0 <= i < j < |all| ensures all[i] != all[j] {
      if i < |a| && j >= |a| { assert all[i] in a && all[j] in b; }
    }
    forall p ensures p in all <==> Matches(w, source, p) && p.relation in [k] + order {
      assert p in all <==> p in a || p in b;
    }
    assert |ea + eb| == |all|;
    assert forall i :: 0 <= i < |all| ==> (ea + eb)[i] == EdgeAt(w, source, all[i]);
  }

  lemma {:induction false} OrderPlaces(w: World, source: Restriction, order: seq<Key>) returns (places: seq<Place>)
    requires forall i, j :: 0 <= i < j < |order| ==> order[i] != order[j]
    ensures ListsPlaces(w, source, order, places, OwnedAll(w, source, order))
  {
    if order == [] {
      places := [];
    } else {
      var first := RelationPlaces(w, source, order[0]);
      var rest := OrderPlaces(w, source, order[1..]);
      places := first + rest;
      PlacesConcat(w, source, order[0], order[1..], first, rest, Owned(ItemsOf(w, order[0], source)),
        OwnedAll(w, source, order[1..]));
      assert [order[0]] + order[1..] == order;
    }
  }
}
