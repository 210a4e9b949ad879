/** Cycle detection over computed relations, and what its absence gives: a ranking, and a terminating resolution. */
module TypeCycles {
  import opened Options
  import opened Model
  import opened FastPath

  // ------------------------------------------------------------ references between relations

  /** The rewrite refers to `b` by a computed userset. */
  predicate Mentions(rw: Rewrite, b: string) {
    match rw
    case This => false
    case TupleToUserset(_, _) => false
    case Computed(c) => c == b
    case Union(children) => exists i :: 0 <= i < |children| && Mentions(children[i], b)
    case Intersection(children) => exists i :: 0 <= i < |children| && Mentions(children[i], b)
    case Difference(base, subtract) => Mentions(base, b) || Mentions(subtract, b)
  }

  predicate Refers(w: World, typ: string, a: string, b: string) {
    (typ, a) in w.relations && Mentions(w.relations[(typ, a)].rewrite, b)
  }

  /** `b` is reached from `a` by `n` references. */
  ghost predicate Walk(w: World, typ: string, a: string, b: string, n: nat)
    decreases n
  {
    if n == 0 then a == b else exists c :: Refers(w, typ, a, c) && Walk(w, typ, c, b, n - 1)
  }

  ghost predicate Leads(w: World, typ: string, a: string, b: string) {
    exists n: nat :: Walk(w, typ, a, b, n)
  }

  /** `b` refers back to itself through one or more references. */
  ghost predicate OnCycle(w: World, typ: string, b: string) {
    exists c :: Refers(w, typ, b, c) && Leads(w, typ, c, b)
  }

  /** A cycle of references can be reached. */
  ghost predicate CycleAhead(w: World, typ: string, a: string) {
    exists b :: Leads(w, typ, a, b) && OnCycle(w, typ, b)
  }

  /** An undefined relation can be reached. */
  ghost predicate UndefinedAhead(w: World, typ: string, a: string) {
    exists b :: Leads(w, typ, a, b) && (typ, b) !in w.relations
  }

  lemma {:induction false} WalkSnoc(w: World, typ: string, a: string, b: string, c: string, n: nat)
    requires Walk(w, typ, a, b, n) && Refers(w, typ, b, c)
    ensures Walk(w, typ, a, c, n + 1)
    decreases n
  {
    if n == 0 {
      assert Walk(w, typ, c, c, 0);
    } else {
      var d :| Refers(w, typ, a, d) && Walk(w, typ, d, b, n - 1);
      WalkSnoc(w, typ, d, b, c, n - 1);
    }
  }

  lemma LeadsSnoc(w: World, typ: string, a: string, b: string, c: string)
    requires Leads(w, typ, a, b) && Refers(w, typ, b, c)
    ensures Leads(w, typ, a, c)
  {
    var n: nat :| Walk(w, typ, a, b, n);
    WalkSnoc(w, typ, a, b, c, n);
  }

  lemma LeadsSelf(w: World, typ: string, a: string)
    ensures Leads(w, typ, a, a)
  {
    assert Walk(w, typ, a, a, 0);
  }

  lemma LeadsCons(w: World, typ: string, a: string, b: string, c: string)
    requires Refers(w, typ, a, b) && Leads(w, typ, b, c)
    ensures Leads(w, typ, a, c)
  {
    var n: nat :| Walk(w, typ, b, c, n);
    assert Walk(w, typ, a, c, n + 1);
  }

  // ------------------------------------------------------------ bounded walks

  /** Some walk of `k` references starts at `a`. */
  ghost predicate WalksFor(w: World, typ: string, a: string, k: nat)
    decreases k
  {
    k == 0 || exists b :: Refers(w, typ, a, b) && WalksFor(w, typ, b, k - 1)
  }

  lemma {:induction false} ShorterWalk(w: World, typ: string, a: string, j: nat, k: nat)
    requires j <= k && WalksFor(w, typ, a, k)
    ensures WalksFor(w, typ, a, j)
    decreases j
  {
    if j > 0 {
      var b :| Refers(w, typ, a, b) && WalksFor(w, typ, b, k - 1);
      ShorterWalk(w, typ, b, j - 1, k - 1);
    }
  }

  /** Walks can be continued by the walks of where they lead. */
  lemma {:induction false} WalkThrough(w: World, typ: string, a: string, b: string, n: nat, k: nat)
    requires Walk(w, typ, a, b, n) && WalksFor(w, typ, b, k)
    ensures WalksFor(w, typ, a, n + k)
    decreases n
  {
    if n > 0 {
      var c :| Refers(w, typ, a, c) && Walk(w, typ, c, b, n - 1);
      WalkThrough(w, typ, c, b, n - 1, k);
    }
  }

  /** Around a cycle there are walks of every length. */
  lemma {:induction false} CycleWalks(w: World, typ: string, b: string, k: nat)
    requires OnCycle(w, typ, b)
    ensures WalksFor(w, typ, b, k)
    decreases k
  {
    if k > 0 {
      var c :| Refers(w, typ, b, c) && Leads(w, typ, c, b);
      var n: nat :| Walk(w, typ, c, b, n);
      CycleWalks(w, typ, b, k - 1);
      WalkThrough(w, typ, c, b, n, k - 1);
      ShorterWalk(w, typ, c, k - 1, n + k - 1);
    }
  }

  /** If walks are bounded, no cycle is ahead. */
  lemma BoundedNoCycle(w: World, typ: string, a: string, k: nat)
    requires !WalksFor(w, typ, a, k)
    ensures !CycleAhead(w, typ, a)
  {
    if CycleAhead(w, typ, a) {
      var b :| Leads(w, typ, a, b) && OnCycle(w, typ, b);
      var n: nat :| Walk(w, typ, a, b, n);
      CycleWalks(w, typ, b, k);
      WalkThrough(w, typ, a, b, n, k);
      ShorterWalk(w, typ, a, k, n + k);
    }
  }

  function Names(w: World, typ: string): set<string> {
    set k | k in w.relations.Keys && k.0 == typ :: k.1
  }

  lemma NamesDefined(w: World, typ: string, a: string)
    ensures a in Names(w, typ) <==> (typ, a) in w.relations
  {
    if (typ, a) in w.relations { assert (typ, a).0 == typ && (typ, a).1 == a; }
  }

  /** Each of these relations refers to one that leads to `a`. */
  ghost predicate Before(w: World, typ: string, before: set<string>, a: string) {
    forall v :: v in before ==> exists c :: Refers(w, typ, v, c) && Leads(w, typ, c, a)
  }

  lemma BeforeNext(w: World, typ: string, before: set<string>, a: string, b: string)
    requires Before(w, typ, before, a) && Refers(w, typ, a, b)
    ensures Before(w, typ, before + {a}, b)
  {
    LeadsSelf(w, typ, b);
    forall v | v in before ensures exists c :: Refers(w, typ, v, c) && Leads(w, typ, c, b) {
      var c :| Refers(w, typ, v, c) && Leads(w, typ, c, a);
      LeadsSnoc(w, typ, c, a, b);
    }
  }

  lemma OneFewer(names: set<string>, before: set<string>, a: string)
    requires a in names && a !in before
    ensures |names - (before + {a})| == |names - before| - 1
  {
    assert names - (before + {a}) == (names - before) - {a};
  }

  /** If no cycle is ahead, walks are bounded: a walk longer than the relations that are left would return to one. */
  lemma {:induction false} NoCycleBounded(w: World, typ: string, a: string, before: set<string>)
    requires !CycleAhead(w, typ, a) && Before(w, typ, before, a)
    ensures !WalksFor(w, typ, a, |Names(w, typ) - before| + 1)
    decreases |Names(w, typ) - before|
  {
    var k := |Names(w, typ) - before|;
    LeadsSelf(w, typ, a);
    if WalksFor(w, typ, a, k + 1) {
      var b :| Refers(w, typ, a, b) && WalksFor(w, typ, b, k);
      assert a !in before;
      NamesDefined(w, typ, a);
      OneFewer(Names(w, typ), before, a);
      BeforeNext(w, typ, before, a, b);
      AheadCons(w, typ, a, b);
      NoCycleBounded(w, typ, b, before + {a});
    }
  }

  /** What is ahead of a referenced relation is ahead. */
  lemma AheadCons(w: World, typ: string, a: string, b: string)
    requires Refers(w, typ, a, b)
    ensures CycleAhead(w, typ, b) ==> CycleAhead(w, typ, a)
    ensures UndefinedAhead(w, typ, b) ==> UndefinedAhead(w, typ, a)
  {
    if CycleAhead(w, typ, b) {
      var c :| Leads(w, typ, b, c) && OnCycle(w, typ, c);
      LeadsCons(w, typ, a, b, c);
    }
    if UndefinedAhead(w, typ, b) {
      var c :| Leads(w, typ, b, c) && (typ, c) !in w.relations;
      LeadsCons(w, typ, a, b, c);
    }
  }

  /** Neither a cycle nor an undefined relation is ahead. */
  ghost predicate Clear(w: World, typ: string, a: string) {
    !CycleAhead(w, typ, a) && !UndefinedAhead(w, typ, a)
  }

  lemma ClearStep(w: World, typ: string, a: string)
    requires (typ, a) in w.relations
    ensures Clear(w, typ, a) || exists b :: Refers(w, typ, a, b) && !Clear(w, typ, b)
  {
    if CycleAhead(w, typ, a) {
      var b :| Leads(w, typ, a, b) && OnCycle(w, typ, b);
      var n: nat :| Walk(w, typ, a, b, n);
      if n == 0 {
        var c :| Refers(w, typ, a, c) && Leads(w, typ, c, a);
        assert CycleAhead(w, typ, c);
      } else {
        var c :| Refers(w, typ, a, c) && Walk(w, typ, c, b, n - 1);
        assert CycleAhead(w, typ, c);
      }
    }
    if UndefinedAhead(w, typ, a) {
      var b :| Leads(w, typ, a, b) && (typ, b) !in w.relations;
      var n: nat :| Walk(w, typ, a, b, n);
      var c :| Refers(w, typ, a, c) && Walk(w, typ, c, b, n - 1);
      assert UndefinedAhead(w, typ, c);
    }
  }

  // ------------------------------------------------------------ hasCycle

  /** The relations on the current path all lead to the current one. */
  ghost predicate OnPath(w: World, typ: string, path: set<string>, relation: string) {
    forall v :: v in path ==> Leads(w, typ, v, relation)
  }

  /** What hasCycle may return for one rewrite of `relation`. */
  ghost predicate Verdict(w: World, typ: string, relation: string, rw: Rewrite, r: Option<bool>) {
    match r
    case Some(true) => CycleAhead(w, typ, relation)
    case Some(false) => forall b :: Mentions(rw, b) ==> Clear(w, typ, b)
    case None => UndefinedAhead(w, typ, relation)
  }

  /** hasCycle on one rewrite of `relation`. The caller's map gains the relation. */
  method HasCycleBelow(w: World, typ: string, relation: string, rw: Rewrite, visited: set<string>)
    returns (r: Option<bool>, visited': set<string>)
    requires (typ, relation) in w.relations && OnPath(w, typ, visited, relation)
    requires forall b :: Mentions(rw, b) ==> Refers(w, typ, relation, b)
    ensures visited' == visited + {relation} && Verdict(w, typ, relation, rw, r)
    decreases Names(w, typ) - (visited + {relation}), rw
  {
    visited' := visited + {relation};
    LeadsSelf(w, typ, relation);
    match rw
    case This => return Some(false), visited';
    case TupleToUserset(_, _) => return Some(false), visited';
    case Computed(c) => r := ComputedCycle(w, typ, relation, c, visited');
    case _ => r := OperandsCycle(w, typ, relation, rw, visited');
  }

  method ComputedCycle(w: World, typ: string, relation: string, c: string, visited: set<string>)
    returns (r: Option<bool>)
    requires (typ, relation) in w.relations && OnPath(w, typ, visited, relation) && relation in visited
    requires Refers(w, typ, relation, c)
    ensures Verdict(w, typ, relation, Computed(c), r)
    decreases Names(w, typ) - visited, Computed(c), 0
  {
    if c in visited {
      assert OnCycle(w, typ, relation);
      LeadsSelf(w, typ, relation);
      return Some(true);
    }
    LeadsSelf(w, typ, c);
    AheadCons(w, typ, relation, c);
    if (typ, c) !in w.relations { return None; }
    forall v | v in visited ensures Leads(w, typ, v, c) { LeadsSnoc(w, typ, v, relation, c); }
    NamesDefined(w, typ, c);
    var marked;
    r, marked := HasCycleBelow(w, typ, c, w.relations[(typ, c)].rewrite, visited);
    if r == Some(false) { ClearStep(w, typ, c); }
  }

  /** A set operator mentions what its operands mention. */
  lemma OperandsMention(rw: Rewrite)
    requires rw.Union? || rw.Intersection? || rw.Difference?
    ensures forall b :: Mentions(rw, b) <==> exists i :: 0 <= i < |Operands(rw)| && Mentions(Operands(rw)[i], b)
  {
    var r := Operands(rw);
    if rw.Difference? { assert r[0] == rw.base && r[1] == rw.subtract; }
  }

  method OperandsCycle(w: World, typ: string, relation: string, rw: Rewrite, visited: set<string>)
    returns (r: Option<bool>)
    requires (typ, relation) in w.relations && OnPath(w, typ, visited, relation) && relation in visited
    requires rw.Union? || rw.Intersection? || rw.Difference?
    requires forall b :: Mentions(rw, b) ==> Refers(w, typ, relation, b)
    ensures Verdict(w, typ, relation, rw, r)
    decreases Names(w, typ) - visited, rw, 0
  {
    var children, copy := Operands(rw), visited;
    OperandsMention(rw);
    for i := 0 to |children|
      invariant copy == visited
      invariant forall j, b :: 0 <= j < i && Mentions(children[j], b) ==> Clear(w, typ, b)
    {
      assert visited + {relation} == visited;
      r, copy := HasCycleBelow(w, typ, relation, children[i], copy);
      if r != Some(false) { return; }
    }
    return Some(false);
  }

  /**
   * HasCycle is exact: true only if a cycle of computed relations is ahead, false only if neither a cycle
   * nor an undefined relation is, and an error only if an undefined relation is ahead.
   */
  method HasCycle(w: World, typ: string, relation: string) returns (r: Option<bool>)
    ensures r == Some(true) ==> CycleAhead(w, typ, relation)
    ensures r == Some(false) <==> Clear(w, typ, relation)
    ensures r.None? ==> UndefinedAhead(w, typ, relation)
  {
    LeadsSelf(w, typ, relation);
    if (typ, relation) !in w.relations { return None; }
    var marked;
    r, marked := HasCycleBelow(w, typ, relation, w.relations[(typ, relation)].rewrite, {});
    if r == Some(false) { ClearStep(w, typ, relation); }
  }

  // ------------------------------------------------------------ a ranking

  /** The length of the longest walk shorter than `k`. */
  ghost function Height(w: World, typ: string, a: string, k: nat): (h: nat)
    ensures k > 0 ==> h < k
    ensures WalksFor(w, typ, a, h) && forall j: nat :: h < j < k ==> !WalksFor(w, typ, a, j)
  {
    if k <= 1 then 0 else if WalksFor(w, typ, a, k - 1) then k - 1 else Height(w, typ, a, k - 1)
  }

  lemma {:induction false} MentionedBelow(w: World, typ: string, rank: map<string, nat>, rw: Rewrite, bound: nat)
    ensures RefersBelow(w, typ, rank, rw, bound) <==>
      forall b :: Mentions(rw, b) && (typ, b) in w.relations ==> b in rank && rank[b] < bound
    decreases rw
  {
    var ops := Operands(rw);
    forall i | 0 <= i < |ops|
      ensures RefersBelow(w, typ, rank, ops[i], bound) <==>
        forall b :: Mentions(ops[i], b) && (typ, b) in w.relations ==> b in rank && rank[b] < bound
    {
      MentionedBelow(w, typ, rank, ops[i], bound);
    }
    match rw
    case Difference(base, subtract) => assert ops[0] == base && ops[1] == subtract;
    case _ =>
  }

  /** The relations of a type can be ranked exactly if no cycle of computed references exists. */
  lemma RankedIffAcyclic(w: World, typ: string)
    ensures (exists rank :: Ranked(w, typ, rank)) <==> forall a :: (typ, a) in w.relations ==> !CycleAhead(w, typ, a)
  {
    if rank :| Ranked(w, typ, rank) {
      forall a | (typ, a) in w.relations ensures !CycleAhead(w, typ, a) {
        RankBounds(w, typ, rank, a);
        BoundedNoCycle(w, typ, a, rank[a] + 2);
      }
    }
    if forall a :: (typ, a) in w.relations ==> !CycleAhead(w, typ, a) {
      var rank := AcyclicRank(w, typ);
    }
  }

  lemma {:induction false} RankBounds(w: World, typ: string, rank: map<string, nat>, a: string)
    requires Ranked(w, typ, rank) && (typ, a) in w.relations
    ensures a in rank && !WalksFor(w, typ, a, rank[a] + 2)
    decreases if a in rank then rank[a] else 0
  {
    MentionedBelow(w, typ, rank, w.relations[(typ, a)].rewrite, rank[a]);
    if WalksFor(w, typ, a, rank[a] + 2) {
      var b :| Refers(w, typ, a, b) && WalksFor(w, typ, b, rank[a] + 1);
      if (typ, b) in w.relations {
        RankBounds(w, typ, rank, b);
        ShorterWalk(w, typ, b, rank[b] + 2, rank[a] + 1);
      }
    }
  }

  /** The heights rank the relations. */
  lemma AcyclicRank(w: World, typ: string) returns (rank: map<string, nat>)
    requires forall a :: (typ, a) in w.relations ==> !CycleAhead(w, typ, a)
    ensures Ranked(w, typ, rank)
  {
    var k := |Names(w, typ)| + 1;
    rank := map a | a in Names(w, typ) :: Height(w, typ, a, k);
    forall a | (typ, a) in w.relations
      ensures a in rank && RefersBelow(w, typ, rank, w.relations[(typ, a)].rewrite, rank[a])
    {
      NamesDefined(w, typ, a);
      forall b | Mentions(w.relations[(typ, a)].rewrite, b) && (typ, b) in w.relations
        ensures b in rank && rank[b] < rank[a]
      {
        NamesDefined(w, typ, b);
        Higher(w, typ, a, b, k);
      }
      MentionedBelow(w, typ, rank, w.relations[(typ, a)].rewrite, rank[a]);
    }
  }

  lemma Higher(w: World, typ: string, a: string, b: string, k: nat)
    requires Refers(w, typ, a, b) && !CycleAhead(w, typ, a) && k == |Names(w, typ)| + 1
    ensures Height(w, typ, b, k) < Height(w, typ, a, k)
  {
    var h := Height(w, typ, b, k);
    assert WalksFor(w, typ, a, h + 1);
    NoCycleBounded(w, typ, a, {});
    assert Names(w, typ) - {} == Names(w, typ);
  }

  // ------------------------------------------------------------ ResolveComputedRelation

  /** Following `n` purely computed definitions from `r` ends at `x`, which is directly assigned. */
  ghost predicate EndsIn(w: World, typ: string, r: string, x: string, n: nat)
    decreases n
  {
    (typ, r) in w.relations &&
    var rw := w.relations[(typ, r)].rewrite;
    if n == 0 then rw.This? && r == x else rw.Computed? && EndsIn(w, typ, rw.relation, x, n - 1)
  }

  ghost predicate EndsAt(w: World, typ: string, r: string, x: string) {
    exists n: nat :: EndsIn(w, typ, r, x, n)
  }

  /** A relation ends at no more than one relation. */
  lemma EndsAtOne(w: World, typ: string, r: string, x: string, y: string)
    requires EndsAt(w, typ, r, x) && EndsAt(w, typ, r, y)
    ensures x == y
  {
    var n: nat :| EndsIn(w, typ, r, x, n);
    var m: nat :| EndsIn(w, typ, r, y, m);
    EndsInOne(w, typ, r, x, y, n, m);
  }

  lemma {:induction false} EndsInOne(w: World, typ: string, r: string, x: string, y: string, n: nat, m: nat)
    requires EndsIn(w, typ, r, x, n) && EndsIn(w, typ, r, y, m)
    ensures x == y
    decreases n
  {
    if n > 0 { EndsInOne(w, typ, w.relations[(typ, r)].rewrite.relation, x, y, n - 1, m - 1); }
  }

  lemma EndsAtStep(w: World, typ: string, r: string)
    ensures (typ, r) in w.relations && w.relations[(typ, r)].rewrite.Computed? ==>
      forall x :: EndsAt(w, typ, r, x) <==> EndsAt(w, typ, w.relations[(typ, r)].rewrite.relation, x)
    ensures (typ, r) in w.relations && w.relations[(typ, r)].rewrite.This? ==> forall x :: EndsAt(w, typ, r, x) <==>
      x == r
    ensures (exists x :: EndsAt(w, typ, r, x)) ==>
      (typ, r) in w.relations && (w.relations[(typ, r)].rewrite.Computed? || w.relations[(typ, r)].rewrite.This?)
  {
    if (typ, r) in w.relations && w.relations[(typ, r)].rewrite.Computed? {
      var c := w.relations[(typ, r)].rewrite.relation;
      forall x ensures EndsAt(w, typ, r, x) <==> EndsAt(w, typ, c, x) {
        if n: nat :| EndsIn(w, typ, r, x, n) { assert EndsIn(w, typ, c, x, n - 1); }
        if n: nat :| EndsIn(w, typ, c, x, n) { assert EndsIn(w, typ, r, x, n + 1); }
      }
    } else if (typ, r) in w.relations && w.relations[(typ, r)].rewrite.This? {
      assert EndsIn(w, typ, r, r, 0);
    }
  }

  // ------------------------------------------------------------ the table of resolved relations

  /** The key under which a resolved relation is remembered. */
  function MemoKey(typ: string, r: string): string {
    typ + "-" + r
  }

  type Table = map<string, string>

  predicate Assigned(w: World, typ: string, r: string) {
    (typ, r) in w.relations && w.relations[(typ, r)].rewrite.This?
  }

  /** An entry comes from a directly assigned relation with that key. */
  ghost predicate Remembers(w: World, key: string, x: string) {
    exists t :: Assigned(w, t, x) && MemoKey(t, x) == key
  }

  ghost predicate Filled(w: World, table: Table) {
    forall key :: key in table ==> Remembers(w, key, table[key])
  }

  /** The answer and the table after one resolution. */
  ghost function Resolve(w: World, rank: map<string, nat>, table: Table, typ: string, r: string): (Option<string>,
                         Table)
    requires Ranked(w, typ, rank)
    decreases if (typ, r) in w.relations then rank[r] + 1 else 0
  {
    if MemoKey(typ, r) in table then (Some(table[MemoKey(typ, r)]), table)
    else if (typ, r) !in w.relations then (None, table)
    else match w.relations[(typ, r)].rewrite
      case Computed(c) => Resolve(w, rank, table, typ, c)
      case This => (Some(r), table[MemoKey(typ, r) := r])
      case _ => (None, table)
  }

  /** The answer is the relation at which the definitions end, or an error if they end at none. */
  ghost predicate Right(w: World, typ: string, r: string, o: Option<string>) {
    match o
    case Some(x) => EndsAt(w, typ, r, x)
    case None => forall x :: !EndsAt(w, typ, r, x)
  }

  /** No two relations with different answers share a key: whatever has the key of an assigned relation ends there. */
  ghost predicate KeysAgree(w: World) {
    forall t, r, t', r' :: Assigned(w, t', r') && MemoKey(t, r) == MemoKey(t', r') ==> EndsAt(w, t, r, r')
  }

  /** Whatever assigned relation has the same key, the relation ends there. */
  ghost predicate KeyAgrees(w: World, t: string, r: string) {
    forall t', r' :: Assigned(w, t', r') && MemoKey(t, r) == MemoKey(t', r') ==> EndsAt(w, t, r, r')
  }

  /**
   * A relation that is resolved when only defined relations are asked for: a defined one, or one a
   * definition names.
   */
  ghost predicate Asked(w: World, t: string, r: string) {
    (t, r) in w.relations || exists q :: (t, q) in w.relations && w.relations[(t, q)].rewrite == Computed(r)
  }

  ghost predicate AskedKeysAgree(w: World) {
    forall t, r :: Asked(w, t, r) ==> KeyAgrees(w, t, r)
  }

  lemma {:induction false} ResolveRight(w: World, rank: map<string, nat>, table: Table, typ: string, r: string)
    requires Ranked(w, typ, rank) && Filled(w, table) && AskedKeysAgree(w) && KeyAgrees(w, typ, r)
    ensures Right(w, typ, r, Resolve(w, rank, table, typ, r).0)
    decreases if (typ, r) in w.relations then rank[r] + 1 else 0
  {
    EndsAtStep(w, typ, r);
    if MemoKey(typ, r) in table {
      var x := table[MemoKey(typ, r)];
      assert Remembers(w, MemoKey(typ, r), x);
      var t :| Assigned(w, t, x) && MemoKey(t, x) == MemoKey(typ, r);
    } else if (typ, r) in w.relations && w.relations[(typ, r)].rewrite.Computed? {
      assert Asked(w, typ, w.relations[(typ, r)].rewrite.relation);
      ResolveRight(w, rank, table, typ, w.relations[(typ, r)].rewrite.relation);
    }
  }

  lemma AllAgree(w: World, t: string, r: string)
    requires KeysAgree(w)
    ensures KeyAgrees(w, t, r) && AskedKeysAgree(w)
  {
  }

  lemma {:induction false} ResolveFills(w: World, rank: map<string, nat>, table: Table, typ: string, r: string)
    requires Ranked(w, typ, rank) && Filled(w, table)
    ensures Filled(w, Resolve(w, rank, table, typ, r).1)
    decreases if (typ, r) in w.relations then rank[r] + 1 else 0
  {
    if MemoKey(typ, r) !in table && (typ, r) in w.relations {
      if w.relations[(typ, r)].rewrite.Computed? {
        ResolveFills(w, rank, table, typ, w.relations[(typ, r)].rewrite.relation);
      } else if w.relations[(typ, r)].rewrite.This? {
        assert Assigned(w, typ, r) && Remembers(w, MemoKey(typ, r), r);
      }
    }
  }

  /** A ranking for every type. */
  ghost predicate AllRanked(w: World, ranks: map<string, map<string, nat>>) {
    forall typ: string :: Ranked(w, typ, RankOf(ranks, typ))
  }

  function RankOf(ranks: map<string, map<string, nat>>, typ: string): map<string, nat> {
    if typ in ranks then ranks[typ] else map[]
  }

  /** The table after a sequence of resolutions, starting from the empty one. */
  ghost function TableAfter(w: World, ranks: map<string, map<string, nat>>, queries: seq<(string, string)>): Table
    requires AllRanked(w, ranks)
  {
    if queries == [] then map[]
    else
      var q := queries[|queries| - 1];
      Resolve(w, RankOf(ranks, q.0), TableAfter(w, ranks, queries[..|queries| - 1]), q.0, q.1).1
  }

  lemma {:induction false} TableFilled(w: World, ranks: map<string, map<string, nat>>, queries: seq<(string, string)>)
    requires AllRanked(w, ranks)
    ensures Filled(w, TableAfter(w, ranks, queries))
  {
    if queries != [] {
      var q, front := queries[|queries| - 1], queries[..|queries| - 1];
      TableFilled(w, ranks, front);
      ResolveFills(w, RankOf(ranks, q.0), TableAfter(w, ranks, front), q.0, q.1);
    }
  }

  ghost predicate RightAfter(w: World, ranks: map<string, map<string, nat>>, queries: seq<(string, string)>,
                             typ: string, r: string)
    requires AllRanked(w, ranks)
  {
    Right(w, typ, r, Resolve(w, RankOf(ranks, typ), TableAfter(w, ranks, queries), typ, r).0)
  }

  /** The table never changes an answer, whatever was asked before, if and only if no shared key has two answers. */
  lemma TableTransparent(w: World, ranks: map<string, map<string, nat>>)
    requires AllRanked(w, ranks)
    ensures (forall queries, typ, r :: RightAfter(w, ranks, queries, typ, r)) <==> KeysAgree(w)
  {
    if KeysAgree(w) {
      forall queries, typ, r ensures RightAfter(w, ranks, queries, typ, r) {
        TableFilled(w, ranks, queries);
        AllAgree(w, typ, r);
        ResolveRight(w, RankOf(ranks, typ), TableAfter(w, ranks, queries), typ, r);
      }
    } else {
      var t, r, t', r' :| Assigned(w, t', r') && MemoKey(t, r) == MemoKey(t', r') && !EndsAt(w, t, r, r');
      AfterOne(w, ranks, t', r');
      assert !RightAfter(w, ranks, [(t', r')], t, r);
    }
  }

  ghost predicate RightWhenDefined(w: World, ranks: map<string, map<string, nat>>, queries: seq<(string, string)>,
                                   typ: string, r: string)
    requires AllRanked(w, ranks)
  {
    (forall q :: q in queries ==> q in w.relations) && (typ, r) in w.relations ==> RightAfter(w, ranks, queries, typ, r)
  }

  /**
   * If only defined relations are ever asked for, only the keys of these and of what their definitions
   * name matter.
   */
  lemma TableTransparentWhenDefined(w: World, ranks: map<string, map<string, nat>>)
    requires AllRanked(w, ranks)
    ensures (forall queries, typ, r :: RightWhenDefined(w, ranks, queries, typ, r)) <==> AskedKeysAgree(w)
  {
    if AskedKeysAgree(w) {
      forall queries, typ, r ensures RightWhenDefined(w, ranks, queries, typ, r) {
        TableFilled(w, ranks, queries);
        if (typ, r) in w.relations {
          assert Asked(w, typ, r);
          ResolveRight(w, RankOf(ranks, typ), TableAfter(w, ranks, queries), typ, r);
        }
      }
    } else {
      var t, r :| Asked(w, t, r) && !KeyAgrees(w, t, r);
      var t', r' :| Assigned(w, t', r') && MemoKey(t, r) == MemoKey(t', r') && !EndsAt(w, t, r, r');
      AfterOne(w, ranks, t', r');
      if (t, r) in w.relations {
        assert !RightWhenDefined(w, ranks, [(t', r')], t, r);
      } else {
        var q := NamingMisleads(w, ranks, t, r, t', r');
        assert !RightWhenDefined(w, ranks, [(t', r')], t, q);
      }
    }
  }

  /** A definition that names an undefined relation passes on what the table holds under its key. */
  lemma NamingMisleads(w: World, ranks: map<string, map<string, nat>>, t: string, r: string, t': string, r': string)
    returns (q: string)
    requires AllRanked(w, ranks) && Asked(w, t, r) && (t, r) !in w.relations
    requires Assigned(w, t', r') && MemoKey(t, r) == MemoKey(t', r') && !EndsAt(w, t, r, r')
    ensures (t, q) in w.relations && !RightAfter(w, ranks, [(t', r')], t, q)
  {
    q :| (t, q) in w.relations && w.relations[(t, q)].rewrite == Computed(r);
    AfterOne(w, ranks, t', r');
    EndsAtStep(w, t, q);
    assert MemoKey(t, q) != MemoKey(t, r) by { assert q == MemoKey(t, q)[|t| + 1..] && r == MemoKey(t, r)[|t| + 1..]; }
    var rank, table := RankOf(ranks, t), map[MemoKey(t', r') := r'];
    assert Ranked(w, t, rank);
    assert Resolve(w, rank, table, t, r).0 == Some(r');
    assert Resolve(w, rank, table, t, q).0 == Some(r');
  }

  lemma AfterOne(w: World, ranks: map<string, map<string, nat>>, typ: string, r: string)
    requires AllRanked(w, ranks) && Assigned(w, typ, r)
    ensures TableAfter(w, ranks, [(typ, r)]) == map[MemoKey(typ, r) := r]
  {
    var queries := [(typ, r)];
    assert queries[..0] == [];
    assert TableAfter(w, ranks, queries[..0]) == map[];
  }

  /** Two relations of different types with one key: after the first is resolved, the second gets its answer. */
  lemma SharedKeyMisleads(w: World, ranks: map<string, map<string, nat>>)
    requires AllRanked(w, ranks) && Assigned(w, "org-unit", "admin") && Assigned(w, "org", "unit-admin")
    ensures Resolve(w, RankOf(ranks, "org"), TableAfter(w, ranks, [("org-unit", "admin")]), "org", "unit-admin").0 ==
      Some("admin")
    ensures EndsAt(w, "org", "unit-admin", "unit-admin") && !EndsAt(w, "org", "unit-admin", "admin")
  {
    AfterOne(w, ranks, "org-unit", "admin");
    assert MemoKey("org-unit", "admin") == "org-unit-admin" == MemoKey("org", "unit-admin");
    EndsAtStep(w, "org", "unit-admin");
  }

  /** The type system with its table of resolved relations. */
  class TypeSystem {
    const w: World
    var computedRelations: Table

    ghost predicate Valid()
      reads this
    {
      Filled(w, computedRelations)
    }

    constructor (w: World)
      ensures Valid() && this.w == w && computedRelations == map[]
    {
      this.w, computedRelations := w, map[];
    }

    /**
     * It terminates on ranked relations and answers as specified. Where neither the key of the relation
     * nor one that a definition leads to is shared by relations with different answers, the answer is the
     * relation at which the definitions end, whatever the table holds.
     */
    method ResolveComputedRelation(typ: string, r: string, ghost rank: map<string, nat>) returns (o: Option<string>)
      requires Valid() && Ranked(w, typ, rank)
      modifies this
      ensures Valid() && (o, computedRelations) == Resolve(w, rank, old(computedRelations), typ, r)
      ensures KeyAgrees(w, typ, r) && AskedKeysAgree(w) ==> Right(w, typ, r, o)
      decreases if (typ, r) in w.relations then rank[r] + 1 else 0
    {
      ResolveFills(w, rank, computedRelations, typ, r);
      if KeyAgrees(w, typ, r) && AskedKeysAgree(w) { ResolveRight(w, rank, computedRelations, typ, r); }
      var key := MemoKey(typ, r);
      if key in computedRelations { return Some(computedRelations[key]); }
      if (typ, r) !in w.relations { return None; }
      match w.relations[(typ, r)].rewrite
      case Computed(c) => o := ResolveComputedRelation(typ, c, rank);
      case This =>
        computedRelations := computedRelations[key := r];
        return Some(r);
      case _ => return None;
    }
  }
}
