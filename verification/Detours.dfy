/**
 * For which models the recursive fast path is right: over all valid tuples it finds what the recursive
 * definition asks for, if and only if the model admits no detour or its base can never hold.
 */
module Detours {
  import opened Model
  import opened FastPath
  import opened FastMeaning
  import opened LeafLogic
  import opened FastTwoSided
  import opened RecursiveMeaning

  /** The model is one the recursive fast path is used for; the tuples are left open. */
  ghost predicate ModelReady(sc: Scope, r: string, leaf: Rewrite) {
    && (sc.typ, r) in sc.w.relations && (leaf.This? || leaf.TupleToUserset?)
    && PlainUser(sc) && InScope(sc, r, RewriteOf(sc, r))
    && forall k, x :: k in sc.w.relations && x in sc.w.relations[k].restrictions && x.Userset? ==> x.relation != ""
  }

  ghost predicate AllValid(sc: Scope, rows: Tuples) {
    forall o, s :: CleanRows(Over(sc, rows).w, o, s)
  }

  /** Some choice of tuples on an object puts it into the base. */
  ghost predicate Satisfiable(sc: Scope, r: string)
    requires (sc.typ, r) in sc.w.relations && InScope(sc, r, RewriteOf(sc, r))
  {
    exists holds :: Possible(sc, holds) && Eval(sc, r, RewriteOf(sc, r), holds)
  }

  ghost predicate FindsTheSame(sc: Scope, r: string, leaf: Rewrite, rows: Tuples, o: Object)
    requires ModelReady(sc, r, leaf)
  {
    InScopeOver(sc, rows, r, RewriteOf(sc, r));
    SearchFinds(Over(sc, rows), r, leaf, o) <==> OwnFinds(Over(sc, rows), r, leaf, o)
  }

  /** The search is right on all valid tuples if and only if there is no detour or the base can never hold. */
  lemma DetoursMislead(sc: Scope, r: string, leaf: Rewrite)
    requires ModelReady(sc, r, leaf)
    ensures (forall rows, o: Object :: o.typ == sc.typ && AllValid(sc, rows) ==> FindsTheSame(sc, r, leaf, rows, o))
      <==> !(Detour(sc, r, leaf) && Satisfiable(sc, r))
  {
    if Detour(sc, r, leaf) && Satisfiable(sc, r) {
      var rows, o := Misled(sc, r, leaf);
    } else {
      forall rows, o: Object | o.typ == sc.typ && AllValid(sc, rows) ensures FindsTheSame(sc, r, leaf, rows, o) {
        RightWithoutDetour(sc, r, leaf, rows, o);
      }
    }
  }

  // ------------------------------------------------------------ no detour

  lemma BaseSatisfiable(sc: Scope, r: string, leaf: Rewrite, rows: Tuples, p: Object)
    requires ModelReady(sc, r, leaf) && AllValid(sc, rows) && InScope(Over(sc, rows), r, RewriteOf(sc, r))
    ensures InBase(Over(sc, rows), r, p) ==> Satisfiable(sc, r)
  {
    if InBase(Over(sc, rows), r, p) {
      MemberIsEval(sc, rows, r, RewriteOf(sc, r), p);
      LeafSetPossible(Over(sc, rows), p);
      assert Possible(sc, LeafSet(Over(sc, rows), p));
    }
  }

  lemma DetourOver(sc: Scope, r: string, leaf: Rewrite, rows: Tuples)
    ensures Detour(Over(sc, rows), r, leaf) ==> Detour(sc, r, leaf)
  {
    var over := Over(sc, rows);
    if Detour(over, r, leaf) {
      var x, k: nat :|
        StepAllowed(over, r, leaf, sc.typ, x) && !OwnRestriction(over, r, leaf, x) && Returns(over, r, leaf, x.typ, k);
      ReturnsOver(sc, r, leaf, rows, x.typ, k);
      assert StepAllowed(sc, r, leaf, sc.typ, x) && !OwnRestriction(sc, r, leaf, x);
    }
  }

  lemma {:induction false} ReturnsOver(sc: Scope, r: string, leaf: Rewrite, rows: Tuples, typ: string, k: nat)
    requires Returns(Over(sc, rows), r, leaf, typ, k)
    ensures Returns(sc, r, leaf, typ, k)
    decreases k
  {
    if k > 0 {
      var x :| StepAllowed(Over(sc, rows), r, leaf, typ, x) && Returns(Over(sc, rows), r, leaf, x.typ, k - 1);
      ReturnsOver(sc, r, leaf, rows, x.typ, k - 1);
      assert StepAllowed(sc, r, leaf, typ, x);
    }
  }

  lemma RightWithoutDetour(sc: Scope, r: string, leaf: Rewrite, rows: Tuples, o: Object)
    requires ModelReady(sc, r, leaf) && AllValid(sc, rows) && o.typ == sc.typ
    requires !(Detour(sc, r, leaf) && Satisfiable(sc, r))
    ensures FindsTheSame(sc, r, leaf, rows, o)
  {
    var over := Over(sc, rows);
    InScopeOver(sc, rows, r, RewriteOf(sc, r));
    if Satisfiable(sc, r) {
      DetourOver(sc, r, leaf, rows);
      SearchAndDefinition(over, r, leaf, o);
    } else {
      forall p ensures !InBase(over, r, p) { BaseSatisfiable(sc, r, leaf, rows, p); }
      forall n: nat, own ensures !Finds(over, r, leaf, o, own, n) { EmptyBase(over, r, leaf, o, own, n); }
    }
  }

  // ------------------------------------------------------------ tuples along a detour

  /** A way back to the type: each step is allowed from where the one before leads. */
  ghost predicate Way(sc: Scope, r: string, leaf: Rewrite, typ: string, way: seq<Restriction>)
    decreases |way|
  {
    if way == [] then typ == sc.typ else StepAllowed(sc, r, leaf, typ, way[0]) && Way(sc, r, leaf, way[0].typ, way[1..])
  }

  lemma {:induction false} WayBack(sc: Scope, r: string, leaf: Rewrite, typ: string, k: nat)
    returns (way: seq<Restriction>)
    requires Returns(sc, r, leaf, typ, k)
    ensures Way(sc, r, leaf, typ, way)
    decreases k
  {
    if k == 0 {
      way := [];
    } else {
      var x :| StepAllowed(sc, r, leaf, typ, x) && Returns(sc, r, leaf, x.typ, k - 1);
      var rest := WayBack(sc, r, leaf, x.typ, k - 1);
      way := [x] + rest;
      assert way[1..] == rest;
    }
  }

  /** The object the next step leads to, with a longer id than all before. */
  function After(o: Object, x: Restriction): Object {
    Object(x.typ, o.id + "1")
  }

  /** The tuple for a step. */
  function StepRow(o: Object, x: Restriction): Row {
    Row(User(After(o, x), if x.Userset? then x.relation else ""), Met)
  }

  /** The tuples from `o` along the way, ending at an object on which the choice of relations holds. */
  ghost function Laying(sc: Scope, r: string, leaf: Rewrite, o: Object, way: seq<Restriction>,
                        holds: set<string>): Tuples
    requires Possible(sc, holds)
    decreases |way|
  {
    if way == [] then Realising(sc, o, holds)
    else Laying(sc, r, leaf, After(o, way[0]), way[1..], holds)[(o, From(r, leaf)) := [StepRow(o, way[0])]]
  }

  /** `rows` has these tuples, and no others on the objects of the way. */
  ghost predicate Laid(sc: Scope, r: string, leaf: Rewrite, rows: Tuples, o: Object, way: seq<Restriction>,
                       holds: set<string>)
    requires Possible(sc, holds)
    decreases |way|
  {
    if way == [] then
      (forall s :: s in holds ==> (o, s) in rows && rows[(o, s)] == [Witness(sc, s)]) &&
        (forall s :: s !in holds ==> (o, s) !in rows)
    else
      (o, From(r, leaf)) in rows && rows[(o, From(r, leaf))] == [StepRow(o, way[0])] &&
        Laid(sc, r, leaf, rows, After(o, way[0]), way[1..], holds)
  }

  /** A tuple on an object with a shorter id does not disturb the way. */
  lemma {:induction false} LaidBeside(sc: Scope, r: string, leaf: Rewrite, rows: Tuples, o: Object,
                                      way: seq<Restriction>, holds: set<string>, q: Object, s: string, row: Row)
    requires Possible(sc, holds) && Laid(sc, r, leaf, rows, o, way, holds) && |q.id| < |o.id|
    ensures Laid(sc, r, leaf, rows[(q, s) := [row]], o, way, holds)
    decreases |way|
  {
    if way != [] { LaidBeside(sc, r, leaf, rows, After(o, way[0]), way[1..], holds, q, s, row); }
  }

  lemma {:induction false} LayingLaid(sc: Scope, r: string, leaf: Rewrite, o: Object, way: seq<Restriction>,
                                      holds: set<string>)
    requires Possible(sc, holds)
    ensures Laid(sc, r, leaf, Laying(sc, r, leaf, o, way, holds), o, way, holds)
    decreases |way|
  {
    if way != [] {
      var p := After(o, way[0]);
      LayingLaid(sc, r, leaf, p, way[1..], holds);
      LaidBeside(sc, r, leaf, Laying(sc, r, leaf, p, way[1..], holds), p, way[1..], holds, o, From(r, leaf),
        StepRow(o, way[0]));
    }
  }

  /** Each of these tuples is the only one of its object and relation, and valid. */
  ghost predicate Singles(sc: Scope, rows: Tuples) {
    forall k :: k in rows ==>
      |rows[k]| == 1 && (k.0.typ, k.1) in sc.w.relations && RowTyped(sc.w.relations[(k.0.typ, k.1)], rows[k][0])
  }

  lemma SinglesValid(sc: Scope, rows: Tuples)
    requires Singles(sc, rows)
    ensures AllValid(sc, rows)
  {
    forall o, s ensures CleanRows(Over(sc, rows).w, o, s) {
      if (o, s) in rows { assert |rows[(o, s)]| == 1; }
    }
  }

  lemma {:induction false} LayingSingles(sc: Scope, r: string, leaf: Rewrite, o: Object, way: seq<Restriction>,
                                         holds: set<string>)
    requires ModelReady(sc, r, leaf) && Possible(sc, holds) && Way(sc, r, leaf, o.typ, way) && o.id != ""
    ensures Singles(sc, Laying(sc, r, leaf, o, way, holds))
    decreases |way|
  {
    if way == [] {
      forall s | s in holds ensures RowTyped(sc.w.relations[(sc.typ, s)], Witness(sc, s)) { WitnessMatches(sc, s); }
    } else {
      LayingSingles(sc, r, leaf, After(o, way[0]), way[1..], holds);
      StepTypedRow(sc, r, leaf, o, way[0]);
    }
  }

  lemma StepTypedRow(sc: Scope, r: string, leaf: Rewrite, o: Object, x: Restriction)
    requires ModelReady(sc, r, leaf) && StepAllowed(sc, r, leaf, o.typ, x) && o.id != ""
    ensures RowTyped(sc.w.relations[(o.typ, From(r, leaf))], StepRow(o, x))
    ensures (leaf.TupleToUserset? ==> NamesObject(StepRow(o, x)))
  {
    assert |After(o, x).id| > |"*"|;
  }

  /** The tuple of a step is followed, and it is the only one. */
  lemma StepFollowed(sc: Scope, r: string, leaf: Rewrite, rows: Tuples, o: Object, x: Restriction)
    requires ModelReady(sc, r, leaf) && StepAllowed(sc, r, leaf, o.typ, x) && o.id != ""
    requires (o, From(r, leaf)) in rows && rows[(o, From(r, leaf))] == [StepRow(o, x)]
    ensures StepRow(o, x) in Steps(Over(sc, rows), r, leaf, o)
    ensures forall row :: row in Steps(Over(sc, rows), r, leaf, o) ==> row == StepRow(o, x)
  {
    StepTypedRow(sc, r, leaf, o, x);
    var all := Over(sc, rows).w.Rows(o, From(r, leaf));
    assert forall row :: row in all <==> row == StepRow(o, x);
    assert StepRow(o, x) in StepRows(Over(sc, rows), r, leaf, o);
  }

  lemma WayEnds(sc: Scope, r: string, leaf: Rewrite, rows: Tuples, o: Object, holds: set<string>)
    requires ModelReady(sc, r, leaf) && Possible(sc, holds) && o.typ == sc.typ && Laid(sc, r, leaf, rows, o, [], holds)
    requires Eval(sc, r, RewriteOf(sc, r), holds) && InScope(Over(sc, rows), r, RewriteOf(sc, r))
    ensures InBase(Over(sc, rows), r, o)
  {
    Realised(sc, rows, o, holds);
    MemberIsEval(sc, rows, r, RewriteOf(sc, r), o);
  }

  /** Along the way the base is found. */
  lemma {:induction false} WayFinds(sc: Scope, r: string, leaf: Rewrite, rows: Tuples, o: Object,
                                    way: seq<Restriction>, holds: set<string>, n: nat)
    requires ModelReady(sc, r, leaf) && Possible(sc, holds) && |way| == n + 1 && Way(sc, r, leaf, o.typ, way)
    requires o.id != ""
    requires Laid(sc, r, leaf, rows, o, way, holds) && Eval(sc, r, RewriteOf(sc, r), holds)
    requires InScope(Over(sc, rows), r, RewriteOf(sc, r))
    ensures Finds(Over(sc, rows), r, leaf, o, false, n)
    decreases n
  {
    var over, p := Over(sc, rows), After(o, way[0]);
    assert RewriteOf(over, r) == RewriteOf(sc, r);
    StepFollowed(sc, r, leaf, rows, o, way[0]);
    if n == 0 {
      WayEnds(sc, r, leaf, rows, p, holds);
    } else {
      WayFinds(sc, r, leaf, rows, p, way[1..], holds, n - 1);
    }
    StepFinds(over, r, leaf, o, false, StepRow(o, way[0]), n);
  }

  /** A detour lets the search find the base where the only tuple of the object is not an own one. */
  lemma Misled(sc: Scope, r: string, leaf: Rewrite) returns (rows: Tuples, o: Object)
    requires ModelReady(sc, r, leaf) && Detour(sc, r, leaf) && Satisfiable(sc, r)
    ensures o.typ == sc.typ && AllValid(sc, rows) && !FindsTheSame(sc, r, leaf, rows, o)
  {
    var holds :| Possible(sc, holds) && Eval(sc, r, RewriteOf(sc, r), holds);
    var x, k: nat :| StepAllowed(sc, r, leaf, sc.typ, x) && !OwnRestriction(sc, r, leaf, x) &&
      Returns(sc, r, leaf, x.typ, k);
    var rest := WayBack(sc, r, leaf, x.typ, k);
    var way := [x] + rest;
    assert way[1..] == rest;
    o := Object(sc.typ, "1");
    rows := Laying(sc, r, leaf, o, way, holds);
    LayingSingles(sc, r, leaf, o, way, holds);
    SinglesValid(sc, rows);
    LayingLaid(sc, r, leaf, o, way, holds);
    InScopeOver(sc, rows, r, RewriteOf(sc, r));
    WayFinds(sc, r, leaf, rows, o, way, holds, |rest|);
    StepFollowed(sc, r, leaf, rows, o, x);
    NoOwnStep(sc, r, leaf, rows, o, x);
  }

  lemma NoOwnStep(sc: Scope, r: string, leaf: Rewrite, rows: Tuples, o: Object, x: Restriction)
    requires ModelReady(sc, r, leaf) && StepAllowed(sc, r, leaf, sc.typ, x) && !OwnRestriction(sc, r, leaf, x)
    requires InScope(Over(sc, rows), r, RewriteOf(sc, r))
    requires forall row :: row in Steps(Over(sc, rows), r, leaf, o) ==> row == StepRow(o, x)
    ensures !OwnFinds(Over(sc, rows), r, leaf, o)
  {
    var steps := Steps(Over(sc, rows), r, leaf, o);
    forall i | 0 <= i < |steps| ensures !Own(Over(sc, rows), r, leaf, steps[i]) { assert steps[i] in steps; }
    forall n: nat ensures !Finds(Over(sc, rows), r, leaf, o, true, n) {}
  }
}
