/** The reducers that combine concurrent sub-check outcomes, in whatever order they arrive. */
module Reducers {

  /** A check response with its cycle flag, or an error. */
  datatype Outcome = Resp(allowed: bool, cycle: bool) | Err

  const ALLOWED := Resp(true, false)
  const DENIED := Resp(false, false)
  const CYCLE := Resp(false, true)

  /** What a caller decides on: allowed, denied or error. */
  datatype Kind = Yes | No | Error

  function KindOf(o: Outcome): Kind {
    if o.Err? then Error else if o.allowed then Yes else No
  }

  predicate Allows(o: Outcome) {
    o.Resp? && o.allowed
  }

  predicate Flagged(o: Outcome) {
    o.Resp? && o.cycle
  }

  /** An outcome at which the intersection stops. */
  predicate Stops(o: Outcome) {
    o.Resp? && (o.cycle || !o.allowed)
  }

  /** No response is both allowed and flagged. */
  predicate Coherent(o: Outcome) {
    !(Allows(o) && Flagged(o))
  }

  /** What union and consumeDispatches answer for a set of outcomes. */
  predicate UnionOf(xs: seq<Outcome>, o: Outcome) {
    if exists i :: 0 <= i < |xs| && Allows(xs[i]) then o in xs && Allows(o)
    else if Err in xs then o == Err
    else o == Resp(false, exists i :: 0 <= i < |xs| && Flagged(xs[i]))
  }

  /** What intersection answers: the first stopping response, else an error, else allowed. */
  predicate IntersectionOf(xs: seq<Outcome>, o: Outcome) {
    if xs == [] then o == DENIED
    else if exists i :: 0 <= i < |xs| && Stops(xs[i]) then
      exists i :: 0 <= i < |xs| && Stops(xs[i]) && o == xs[i] && forall j :: 0 <= j < i ==> !Stops(xs[j])
    else if Err in xs then o == Err
    else o == ALLOWED
  }

  /** What exclusion makes of the outcome that arrives first; `None` when it has to wait for the other. */
  predicate BaseSettles(b: Outcome) {
    b.Resp? && (b.cycle || !b.allowed)
  }

  predicate SubtractSettles(s: Outcome) {
    s.Resp? && (s.cycle || s.allowed)
  }

  function SettledBy(o: Outcome): Outcome
    requires o.Resp?
  {
    if o.cycle then CYCLE else DENIED
  }

  /** What exclusion answers when base and subtract arrive in the given order. */
  predicate ExclusionOf(baseFirst: bool, b: Outcome, s: Outcome, o: Outcome) {
    if baseFirst && BaseSettles(b) then o == SettledBy(b)
    else if !baseFirst && SubtractSettles(s) then o == SettledBy(s)
    else if BaseSettles(b) then o == SettledBy(b)
    else if SubtractSettles(s) then o == SettledBy(s)
    else if b.Err? || s.Err? then o == Err
    else o == ALLOWED
  }

  // ------------------------------------------------------------ the receive loops

  method Union(arrivals: seq<Outcome>) returns (o: Outcome)
    ensures UnionOf(arrivals, o)
    ensures o.Resp? && o.allowed <==> exists i :: 0 <= i < |arrivals| && arrivals[i].Resp? && arrivals[i].allowed
    ensures o.Err? <==> Err in arrivals && forall i :: 0 <= i < |arrivals| ==> arrivals[i].Err? || !arrivals[i].allowed
    ensures o.Resp? && o.cycle ==> exists i :: 0 <= i < |arrivals| && arrivals[i].Resp? && arrivals[i].cycle
  {
    var elErr, cycleDetected := false, false;
    for i := 0 to |arrivals|
      invariant forall j :: 0 <= j < i ==> !Allows(arrivals[j])
      invariant elErr <==> Err in arrivals[..i]
      invariant cycleDetected <==> exists j :: 0 <= j < i && Flagged(arrivals[j])
    {
      var result := arrivals[i];
      assert arrivals[..i + 1] == arrivals[..i] + [result];
      if result.Err? {
        elErr := true;
        continue;
      }
      if result.cycle { cycleDetected := true; }
      if result.allowed { return result; }
    }
    assert arrivals[..|arrivals|] == arrivals;
    if elErr { return Err; }
    return Resp(false, cycleDetected);
  }

  method Intersection(arrivals: seq<Outcome>) returns (o: Outcome)
    ensures IntersectionOf(arrivals, o)
    ensures o == ALLOWED <==> arrivals != [] && forall i :: 0 <= i < |arrivals| ==> arrivals[i] == ALLOWED
    ensures o.Err? <==> Err in arrivals && forall x :: x in arrivals ==> x.Err? || x == ALLOWED
    ensures o.Resp? && o.cycle ==> exists i :: 0 <= i < |arrivals| && arrivals[i].Resp? && arrivals[i].cycle
  {
    if |arrivals| == 0 { return DENIED; }
    var elErr := false;
    for i := 0 to |arrivals|
      invariant forall j :: 0 <= j < i ==> !Stops(arrivals[j])
      invariant elErr <==> Err in arrivals[..i]
    {
      var result := arrivals[i];
      assert arrivals[..i + 1] == arrivals[..i] + [result];
      if result.Err? {
        elErr := true;
        continue;
      }
      if result.cycle || !result.allowed { return result; }
    }
    assert arrivals[..|arrivals|] == arrivals;
    if elErr { return Err; }
    return ALLOWED;
  }

  /**
   * exclusion. The base decides if it is denied or flagged, the subtracted operand if it is allowed or
   * flagged; of two that decide, the first to arrive does. An error is given only if neither decides.
   */
  method Exclusion(baseFirst: bool, base: Outcome, subtract: Outcome) returns (o: Outcome)
    ensures ExclusionOf(baseFirst, base, subtract, o)
    ensures o == ALLOWED <==> base == ALLOWED && subtract == DENIED
    ensures o.Err? <==>
      && (base.Err? || subtract.Err?)
      && (base.Err? || base == ALLOWED)
      && (subtract.Err? || subtract == DENIED)
    ensures o.Resp? && o.cycle ==> (base.Resp? && base.cycle) || (subtract.Resp? && subtract.cycle)
    ensures base.Resp? && base != ALLOWED && (baseFirst || subtract.Err? || subtract == DENIED) ==>
      o == Resp(false, base.cycle)
    ensures subtract.Resp? && subtract != DENIED && (!baseFirst || base.Err? || base == ALLOWED) ==>
      o == Resp(false, subtract.cycle)
  {
    var baseErr, subErr := false, false;
    var takeBase := baseFirst;
    for i := 0 to 2
      invariant takeBase == if i % 2 == 0 then baseFirst else !baseFirst
      invariant i > 0 && baseFirst ==> !BaseSettles(base) && (baseErr <==> base.Err?)
      invariant i > 0 && !baseFirst ==> !SubtractSettles(subtract) && (subErr <==> subtract.Err?)
      invariant i > 1 && !baseFirst ==> !BaseSettles(base) && (baseErr <==> base.Err?)
      invariant i > 1 && baseFirst ==> !SubtractSettles(subtract) && (subErr <==> subtract.Err?)
      invariant (i == 0 || (i == 1 && !baseFirst)) ==> !baseErr
      invariant (i == 0 || (i == 1 && baseFirst)) ==> !subErr
    {
      if takeBase {
        if base.Err? {
          baseErr := true;
        } else if base.cycle {
          return CYCLE;
        } else if !base.allowed {
          return DENIED;
        }
      } else {
        if subtract.Err? {
          subErr := true;
        } else if subtract.cycle {
          return CYCLE;
        } else if subtract.allowed {
          return DENIED;
        }
      }
      takeBase := !takeBase;
    }
    if baseErr || subErr { return Err; }
    return ALLOWED;
  }

  /** consumeDispatches: the same answer as union, built up in the final result. */
  method ConsumeDispatches(outcomes: seq<Outcome>) returns (o: Outcome)
    ensures UnionOf(outcomes, o)
    ensures o.Resp? && o.allowed <==> exists i :: 0 <= i < |outcomes| && outcomes[i].Resp? && outcomes[i].allowed
    ensures o.Err? <==> Err in outcomes && forall i :: 0 <= i < |outcomes| ==> outcomes[i].Err? || !outcomes[i].allowed
    ensures o.Resp? && o.cycle ==> exists i :: 0 <= i < |outcomes| && outcomes[i].Resp? && outcomes[i].cycle
  {
    var finalErr := false;
    var finalResult := DENIED;
    var i := 0;
    while i < |outcomes|
      invariant 0 <= i <= |outcomes|
      invariant forall j :: 0 <= j < i ==> !Allows(outcomes[j])
      invariant finalErr <==> Err in outcomes[..i]
      invariant finalResult == Resp(false, exists j :: 0 <= j < i && Flagged(outcomes[j]))
    {
      var outcome := outcomes[i];
      assert outcomes[..i + 1] == outcomes[..i] + [outcome];
      i := i + 1;
      if outcome.Err? {
        finalErr := true;
        continue;
      }
      if outcome.cycle { finalResult := Resp(finalResult.allowed, true); }
      if outcome.allowed {
        finalErr := false;
        finalResult := outcome;
        break;
      }
    }
    assert i == |outcomes| ==> outcomes[..i] == outcomes;
    if finalErr { return Err; }
    return finalResult;
  }

  // ------------------------------------------------------------ any order of arrival

  /** The answers union can give over all orders of arrival of the same outcomes. */
  ghost predicate MayUnion(xs: seq<Outcome>, o: Outcome) {
    exists arrivals :: multiset(arrivals) == multiset(xs) && UnionOf(arrivals, o)
  }

  ghost predicate MayIntersect(xs: seq<Outcome>, o: Outcome) {
    exists arrivals :: multiset(arrivals) == multiset(xs) && IntersectionOf(arrivals, o)
  }

  ghost predicate MayExclude(b: Outcome, s: Outcome, o: Outcome) {
    exists baseFirst :: ExclusionOf(baseFirst, b, s, o)
  }

  lemma SameElements(xs: seq<Outcome>, ys: seq<Outcome>)
    requires multiset(xs) == multiset(ys)
    ensures forall x :: x in xs <==> x in ys
    ensures |xs| == |ys|
  {
    forall x ensures x in xs <==> x in ys {
      assert x in xs <==> x in multiset(xs);
      assert x in ys <==> x in multiset(ys);
    }
    assert |xs| == |multiset(xs)| == |multiset(ys)| == |ys|;
  }

  /** Union does not depend on the order of arrival. */
  lemma UnionConfluent(xs: seq<Outcome>, o: Outcome)
    ensures MayUnion(xs, o) <==> UnionOf(xs, o)
  {
    forall ys | multiset(ys) == multiset(xs) ensures UnionOf(ys, o) <==> UnionOf(xs, o) {
      SameElements(xs, ys);
      TransferAny(xs, ys);
      TransferAny(ys, xs);
    }
  }

  lemma TransferAny(xs: seq<Outcome>, ys: seq<Outcome>)
    requires forall x :: x in xs ==> x in ys
    ensures (exists i :: 0 <= i < |xs| && Allows(xs[i])) ==> exists i :: 0 <= i < |ys| && Allows(ys[i])
    ensures (exists i :: 0 <= i < |xs| && Flagged(xs[i])) ==> exists i :: 0 <= i < |ys| && Flagged(ys[i])
    ensures (exists i :: 0 <= i < |xs| && Stops(xs[i])) ==> exists i :: 0 <= i < |ys| && Stops(ys[i])
  {
    forall i | 0 <= i < |xs| ensures exists j :: 0 <= j < |ys| && ys[j] == xs[i] {
      assert xs[i] in ys;
    }
  }

  /** The answer to an intersection, leaving open which stopping response arrives first. */
  predicate IntersectionAny(xs: seq<Outcome>, o: Outcome) {
    if xs == [] then o == DENIED
    else if exists i :: 0 <= i < |xs| && Stops(xs[i]) then o in xs && Stops(o)
    else if Err in xs then o == Err
    else o == ALLOWED
  }

  lemma IntersectionWithin(xs: seq<Outcome>, ys: seq<Outcome>, o: Outcome)
    requires multiset(ys) == multiset(xs) && IntersectionOf(ys, o)
    ensures IntersectionAny(xs, o)
  {
    SameElements(xs, ys);
    TransferAny(xs, ys);
    TransferAny(ys, xs);
  }

  /** The outcomes with one of them moved to the front. */
  function MovedUp(xs: seq<Outcome>, k: nat): (ys: seq<Outcome>)
    requires k < |xs|
    ensures ys != [] && ys[0] == xs[k] && multiset(ys) == multiset(xs)
  {
    assert xs == xs[..k] + ([xs[k]] + xs[k + 1..]);
    [xs[k]] + (xs[..k] + xs[k + 1..])
  }

  lemma IntersectionReach(xs: seq<Outcome>, o: Outcome)
    requires IntersectionAny(xs, o)
    ensures MayIntersect(xs, o)
  {
    if exists i :: 0 <= i < |xs| && Stops(xs[i]) {
      var k :| 0 <= k < |xs| && xs[k] == o;
      var ys := MovedUp(xs, k);
      assert ys[0] == o;
      assert IntersectionOf(ys, o);
    } else {
      assert IntersectionOf(xs, o);
    }
  }

  /** Intersection answers with any of the stopping responses; without one, the answer is fixed. */
  lemma IntersectionOrders(xs: seq<Outcome>, o: Outcome)
    ensures MayIntersect(xs, o) <==> IntersectionAny(xs, o)
  {
    if MayIntersect(xs, o) {
      var ys :| multiset(ys) == multiset(xs) && IntersectionOf(ys, o);
      IntersectionWithin(xs, ys, o);
    }
    if IntersectionAny(xs, o) { IntersectionReach(xs, o); }
  }

  /** Whatever the order of arrival, every reducer gives the same kind of answer. */
  lemma KindConfluent(xs: seq<Outcome>, o: Outcome, p: Outcome)
    requires forall i :: 0 <= i < |xs| ==> Coherent(xs[i])
    ensures MayUnion(xs, o) && MayUnion(xs, p) ==> o == p
    ensures MayIntersect(xs, o) && MayIntersect(xs, p) ==> KindOf(o) == KindOf(p)
    ensures |xs| == 2 && MayExclude(xs[0], xs[1], o) && MayExclude(xs[0], xs[1], p) ==> KindOf(o) == KindOf(p)
  {
    UnionConfluent(xs, o);
    UnionConfluent(xs, p);
    IntersectionOrders(xs, o);
    IntersectionOrders(xs, p);
    assert forall x :: x in xs ==> Coherent(x);
  }
}
