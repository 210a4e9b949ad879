/** The recursive fast path: a breadth-first search from the object's parents for one related to the user. */
module RecursiveMatch {
  import opened TwoSided

  /** For every object, what the mapper over its recursive tuples delivers; no entry if the read fails to start. */
  type Graph = map<string, seq<RightMsg>>

  /** The objects one tuple away. */
  function Next(g: Graph, x: string): set<string> {
    if x in g then FoundIn(g[x]) else {}
  }

  /** Reading the tuples of `x` meets an error. */
  predicate ReadFails(g: Graph, x: string) {
    x !in g || RightFails(g[x])
  }

  /** `x` is reached from `s` by following `n` tuples. */
  ghost predicate ReachedBy(g: Graph, s: set<string>, x: string, n: nat)
    decreases n
  {
    if n == 0 then x in s else exists y :: ReachedBy(g, s, y, n - 1) && x in Next(g, y)
  }

  ghost predicate Reaches(g: Graph, s: set<string>, x: string) {
    exists n: nat :: ReachedBy(g, s, x, n)
  }

  /** Some reachable object is related to the user. */
  ghost predicate Hits(g: Graph, s: set<string>, user: set<string>) {
    exists x :: Reaches(g, s, x) && x in user
  }

  /** Some object past the first level is related to the user. */
  ghost predicate HitsBeyond(g: Graph, s: set<string>, user: set<string>) {
    exists x, y :: Reaches(g, s, x) && y in Next(g, x) && y in user
  }

  lemma {:induction false} ReachedInside(g: Graph, s: set<string>, t: set<string>, x: string, n: nat)
    requires s <= t && (forall y :: y in t ==> Next(g, y) <= t) && ReachedBy(g, s, x, n)
    ensures x in t
    decreases n
  {
    if n > 0 {
      var y :| ReachedBy(g, s, y, n - 1) && x in Next(g, y);
      ReachedInside(g, s, t, y, n - 1);
    }
  }

  /** The step before the last. */
  lemma LastStep(g: Graph, s: set<string>, x: string, n: nat) returns (y: string)
    requires n > 0 && ReachedBy(g, s, x, n)
    ensures ReachedBy(g, s, y, n - 1) && x in Next(g, y)
  {
    y :| ReachedBy(g, s, y, n - 1) && x in Next(g, y);
  }

  lemma StartReached(g: Graph, s: set<string>)
    ensures forall x :: x in s ==> Reaches(g, s, x)
  {
    forall x | x in s ensures Reaches(g, s, x) { assert ReachedBy(g, s, x, 0); }
  }

  lemma ReachesNext(g: Graph, s: set<string>, x: string, y: string)
    requires Reaches(g, s, x) && y in Next(g, x)
    ensures Reaches(g, s, y)
  {
    var n: nat :| ReachedBy(g, s, x, n);
    assert ReachedBy(g, s, y, n + 1);
  }

  /** Related objects are in the first level or beyond it. */
  lemma HitsSplit(g: Graph, s: set<string>, user: set<string>)
    ensures Hits(g, s, user) <==> s * user != {} || HitsBeyond(g, s, user)
  {
    StartReached(g, s);
    if s * user != {} {
      var x :| x in s * user;
      assert Reaches(g, s, x) && x in user;
    }
    if HitsBeyond(g, s, user) {
      var x, y :| Reaches(g, s, x) && y in Next(g, x) && y in user;
      ReachesNext(g, s, x, y);
    }
    if Hits(g, s, user) {
      var x :| Reaches(g, s, x) && x in user;
      var n: nat :| ReachedBy(g, s, x, n);
      if n == 0 {
        assert x in s * user;
      } else {
        var y :| ReachedBy(g, s, y, n - 1) && x in Next(g, y);
        assert Reaches(g, s, y);
      }
    }
  }

  /** The messages of one mapper: the first related object stops everything, an error stops this mapper. */
  method FollowOne(msgs: seq<RightMsg>, user: set<string>) returns (found: bool, err: bool, next: set<string>)
    ensures found ==> FoundIn(msgs) * user != {}
    ensures next <= FoundIn(msgs)
    ensures !found && !err ==> next == FoundIn(msgs) && next * user == {} && !RightFails(msgs)
    ensures !found ==> next * user == {}
    ensures err ==> !found && RightFails(msgs)
  {
    next := {};
    for i := 0 to |msgs|
      invariant next == FoundIn(msgs[..i]) && next * user == {} && !RightFails(msgs[..i])
    {
      FoundSnoc(msgs, i);
      PrefixFails(msgs, i);
      if msgs[i].LookupFailed? {
        assert RightFails(msgs);
        return false, true, next;
      }
      if msgs[i].obj in user {
        assert msgs[i].obj in FoundIn(msgs) * user;
        return true, false, next;
      }
      next := next + {msgs[i].obj};
    }
    assert msgs[..|msgs|] == msgs;
    return false, false, next;
  }

  /** Search state: everything seen is reachable, and what was expanded leads to seen, unrelated objects. */
  ghost predicate Searched(g: Graph, start: set<string>, user: set<string>, visited: set<string>,
                           frontier: set<string>, err: bool) {
    && (forall x :: x in visited || x in frontier ==> Reaches(g, start, x))
    && start <= visited + frontier
    && (forall x :: x in visited && !ReadFails(g, x) ==> Next(g, x) <= visited + frontier && Next(g, x) * user == {})
    && (!err ==> forall x :: x in visited ==> !ReadFails(g, x))
    && (err ==> SomeReadFails(g, start))
  }

  /** Some reachable object cannot be read. */
  ghost predicate SomeReadFails(g: Graph, start: set<string>) {
    exists x :: Reaches(g, start, x) && ReadFails(g, x)
  }

  /** `x` is reached by following `n` tuples, all of objects that can be read. */
  ghost predicate ReadBy(g: Graph, s: set<string>, x: string, n: nat)
    decreases n
  {
    if n == 0 then x in s else exists y :: ReadBy(g, s, y, n - 1) && !ReadFails(g, y) && x in Next(g, y)
  }

  /** A readable object at most `m` tuples away, reached through readable ones, leads to a related object. */
  ghost predicate HitWithin(g: Graph, s: set<string>, user: set<string>, m: int) {
    exists y, j: nat :: j <= m && ReadBy(g, s, y, j) && !ReadFails(g, y) && Next(g, y) * user != {}
  }

  /** Some reachable object is at least `m` tuples away. */
  ghost predicate Far(g: Graph, s: set<string>, m: int) {
    exists x :: Reaches(g, s, x) && NotCloser(g, s, x, m)
  }

  ghost predicate NotCloser(g: Graph, s: set<string>, x: string, m: int) {
    forall j: nat :: j < m ==> !ReachedBy(g, s, x, j)
  }

  /** After `k` levels: everything closer than that was visited, as far as it could be read. */
  ghost predicate Deep(g: Graph, start: set<string>, visited: set<string>, level: set<string>, k: nat) {
    && (forall y, j: nat :: j < k && ReadBy(g, start, y, j) ==> y in visited)
    && (forall y :: ReadBy(g, start, y, k) ==> y in visited || y in level)
  }

  /** The levels so far had something to expand, so something lies that far away. */
  ghost predicate Distant(g: Graph, start: set<string>, level: set<string>, k: nat) {
    SomeReadFails(g, start) || (Far(g, start, k - 2) && (level != {} ==> Far(g, start, k - 1)))
  }

  lemma {:induction false} ReachedRead(g: Graph, s: set<string>, x: string, n: nat)
    requires !SomeReadFails(g, s) && ReachedBy(g, s, x, n)
    ensures ReadBy(g, s, x, n)
    decreases n
  {
    if n > 0 {
      var y :| ReachedBy(g, s, y, n - 1) && x in Next(g, y);
      assert Reaches(g, s, y);
      ReachedRead(g, s, y, n - 1);
    }
  }

  lemma {:induction false} ReadReached(g: Graph, s: set<string>, x: string, n: nat)
    requires ReadBy(g, s, x, n)
    ensures ReachedBy(g, s, x, n)
    decreases n
  {
    if n > 0 {
      var y :| ReadBy(g, s, y, n - 1) && !ReadFails(g, y) && x in Next(g, y);
      ReadReached(g, s, y, n - 1);
    }
  }

  /** Expanding a level goes one tuple deeper. */
  lemma DeepStep(g: Graph, start: set<string>, user: set<string>, visited: set<string>, level: set<string>,
                 visited': set<string>, next: set<string>, err: bool, k: nat)
    requires Deep(g, start, visited, level, k) && Searched(g, start, user, visited', next, err)
    requires visited <= visited' && level <= visited'
    ensures Deep(g, start, visited', next, k + 1)
  {
    forall y, j: nat | j < k + 1 && ReadBy(g, start, y, j) ensures y in visited' {
      if j == k { assert y in visited || y in level; }
    }
    forall y | ReadBy(g, start, y, k + 1) ensures y in visited' || y in next {
      var z :| ReadBy(g, start, z, k) && !ReadFails(g, z) && y in Next(g, z);
      assert z in visited' && Next(g, z) <= visited' + next;
    }
  }

  /** A level that is not empty was found from an object exactly one level closer. */
  lemma DistantStep(g: Graph, start: set<string>, user: set<string>, visited: set<string>, level: set<string>,
                    next: set<string>, err: bool, k: nat)
    requires level != {} && Searched(g, start, user, visited, level, err) && Deep(g, start, visited, level, k)
    requires Distant(g, start, level, k)
    requires level <= visited ==> next == {}
    ensures Distant(g, start, next, k + 1)
  {
    if !SomeReadFails(g, start) && next != {} {
      var x :| x in level && x !in visited;
      forall j: nat | j < k ensures !ReachedBy(g, start, x, j) {
        if ReachedBy(g, start, x, j) { ReachedRead(g, start, x, j); }
      }
      assert NotCloser(g, start, x, k);
    }
  }

  /** What a search that found nothing in its first `k` levels rules out. */
  lemma NoHitWithin(g: Graph, start: set<string>, user: set<string>, visited: set<string>, level: set<string>,
                    err: bool, k: nat)
    requires Searched(g, start, user, visited, level, err) && Deep(g, start, visited, level, k)
    ensures !HitWithin(g, start, user, k - 1)
  {
  }

  /** A finished search has read everything it could. */
  lemma {:induction false} AllRead(g: Graph, start: set<string>, user: set<string>, visited: set<string>, err: bool,
                                   x: string, n: nat)
    requires Searched(g, start, user, visited, {}, err) && ReadBy(g, start, x, n)
    ensures x in visited
    decreases n
  {
    if n > 0 {
      var y :| ReadBy(g, start, y, n - 1) && !ReadFails(g, y) && x in Next(g, y);
      AllRead(g, start, user, visited, err, y, n - 1);
      assert Next(g, y) <= visited + {};
    }
  }

  lemma FinishedNoHit(g: Graph, start: set<string>, user: set<string>, visited: set<string>, err: bool, m: int)
    requires Searched(g, start, user, visited, {}, err)
    ensures !HitWithin(g, start, user, m)
  {
    forall y, j: nat | ReadBy(g, start, y, j) && !ReadFails(g, y) ensures Next(g, y) * user == {} {
      AllRead(g, start, user, visited, err, y, j);
    }
  }

  /** Expanding one object of the frontier keeps the search state. */
  lemma ExpandOne(g: Graph, start: set<string>, user: set<string>, visited: set<string>, frontier: set<string>,
                  err: bool,
                  x: string, more: set<string>, failed: bool, frontier': set<string>)
    requires Searched(g, start, user, visited, frontier, err) && x in frontier
    requires more <= Next(g, x) && more * user == {} && (failed ==> ReadFails(g, x))
    requires (!failed ==> more == Next(g, x) && !ReadFails(g, x))
    requires frontier - {x} + more <= frontier' <= frontier + more
    ensures Searched(g, start, user, visited + {x}, frontier', err || failed)
  {
    assert Reaches(g, start, x);
    forall y | y in more ensures Reaches(g, start, y) { ReachesNext(g, start, x, y); }
  }

  /** `next` is what the objects lead to, as far as they can be read. */
  ghost predicate Expanded(g: Graph, xs: set<string>, next: set<string>) {
    && (forall y :: y in next ==> exists x :: x in xs && y in Next(g, x))
    && (forall x :: x in xs && !ReadFails(g, x) ==> Next(g, x) <= next)
  }

  lemma ExpandedMore(g: Graph, xs: set<string>, next: set<string>, x: string, more: set<string>, xs': set<string>)
    requires Expanded(g, xs, next) && more <= Next(g, x) && (ReadFails(g, x) || more == Next(g, x)) && xs' == xs + {x}
    ensures Expanded(g, xs', next + more)
  {
    assert x in xs';
    forall y | y in next + more ensures exists z :: z in xs' && y in Next(g, z) {
      if y in next {
        var z :| z in xs && y in Next(g, z);
        assert z in xs';
      }
    }
  }

  // ------------------------------------------------------------ how deep a search goes

  /** `x` is `m` tuples away and no closer, and can be reached through readable objects. */
  ghost predicate AtDistance(g: Graph, s: set<string>, x: string, m: nat) {
    ReadBy(g, s, x, m) && NotCloser(g, s, x, m)
  }

  /** An object `m` tuples away, and no closer, leads on. */
  ghost predicate LeadsOn(g: Graph, s: set<string>, m: nat) {
    exists x :: AtDistance(g, s, x, m) && !ReadFails(g, x) && Next(g, x) != {}
  }

  /** The search has something to expand on each of the first `k` levels. */
  ghost predicate Deeper(g: Graph, s: set<string>, k: nat) {
    k == 0 || (s != {} && (k == 1 || LeadsOn(g, s, k - 2)))
  }

  /** The visited objects are closer than `k` tuples, those of the level are `k` tuples away. */
  ghost predicate Layered(g: Graph, s: set<string>, visited: set<string>, level: set<string>, k: nat) {
    && (forall x :: x in visited ==> !NotCloser(g, s, x, k))
    && (forall x :: x in level ==> ReachedBy(g, s, x, k))
  }

  lemma LayeredStep(g: Graph, s: set<string>, visited: set<string>, level: set<string>, visited': set<string>,
                    next: set<string>, k: nat)
    requires Layered(g, s, visited, level, k) && visited' <= visited + level && Expanded(g, level - visited, next)
    ensures Layered(g, s, visited', next, k + 1)
  {
    forall x | x in visited' ensures !NotCloser(g, s, x, k + 1) {
      if x in visited {
        var j: nat :| j < k && ReachedBy(g, s, x, j);
        assert j < k + 1;
      } else {
        assert ReachedBy(g, s, x, k) && k < k + 1;
      }
    }
    forall y | y in next ensures ReachedBy(g, s, y, k + 1) {
      var x :| x in level - visited && y in Next(g, x);
      assert ReachedBy(g, s, x, k);
    }
  }

  /** On the way to an object there is one at every smaller distance, and it leads on. */
  lemma {:induction false} OnTheWay(g: Graph, s: set<string>, x: string, m: nat, k: nat)
    requires AtDistance(g, s, x, m) && k < m
    ensures LeadsOn(g, s, k)
    decreases m
  {
    var y :| ReadBy(g, s, y, m - 1) && !ReadFails(g, y) && x in Next(g, y);
    forall j: nat | j < m - 1 ensures !ReachedBy(g, s, y, j) {
      if ReachedBy(g, s, y, j) { assert ReachedBy(g, s, x, j + 1); }
    }
    assert AtDistance(g, s, y, m - 1) && Next(g, y) != {};
    if k < m - 1 { OnTheWay(g, s, y, m - 1, k); }
  }

  lemma LeadsOnBefore(g: Graph, s: set<string>, m: nat, k: nat)
    requires LeadsOn(g, s, m) && k <= m
    ensures LeadsOn(g, s, k)
  {
    if k < m {
      var x :| AtDistance(g, s, x, m) && !ReadFails(g, x) && Next(g, x) != {};
      OnTheWay(g, s, x, m, k);
    }
  }

  /** An object that leads on is expanded, so the next level is not empty. */
  lemma NextLevel(g: Graph, s: set<string>, visited: set<string>, level: set<string>, next: set<string>, k: nat)
    requires Deep(g, s, visited, level, k) && Layered(g, s, visited, level, k) && Expanded(g, level - visited, next)
    ensures LeadsOn(g, s, k) ==> next != {}
    ensures !SomeReadFails(g, s) && next != {} ==> LeadsOn(g, s, k)
  {
    if LeadsOn(g, s, k) {
      var x :| AtDistance(g, s, x, k) && !ReadFails(g, x) && Next(g, x) != {};
      assert x in level - visited && Next(g, x) <= next;
    }
    if !SomeReadFails(g, s) && next != {} {
      var y :| y in next;
      var x :| x in level - visited && y in Next(g, x);
      ReachedRead(g, s, x, k);
      forall j: nat | j < k ensures !ReachedBy(g, s, x, j) {
        if ReachedBy(g, s, x, j) { ReachedRead(g, s, x, j); }
      }
      assert Reaches(g, s, x) && AtDistance(g, s, x, k);
    }
  }

  /** A search that ran out of objects after `k` levels had nothing deeper. */
  lemma NotDeeper(g: Graph, s: set<string>, k: nat, m: nat)
    requires k < m && (k == 0 ==> s == {}) && (k > 0 ==> !LeadsOn(g, s, k - 1))
    ensures !Deeper(g, s, m)
  {
    if Deeper(g, s, m) && m > 1 && s != {} { LeadsOnBefore(g, s, m - 2, k - 1); }
  }

  /** A level that is empty from the second on means that no object leads on. */
  ghost predicate Ended(g: Graph, s: set<string>, level: set<string>, k: nat) {
    level == {} ==> if k == 0 then s == {} else !LeadsOn(g, s, k - 1)
  }

  /** One level: expands every object not visited before, in any order. */
  method ExpandLevel(g: Graph, ghost start: set<string>, level: set<string>, visited: set<string>, user: set<string>,
                     err: bool)
    returns (found: bool, err': bool, next: set<string>, visited': set<string>)
    requires Searched(g, start, user, visited, level, err)
    ensures found ==> HitsBeyond(g, start, user)
    ensures !found ==> Searched(g, start, user, visited', next, err')
    ensures !found ==>
      visited <= visited' && level <= visited' && (level <= visited ==> visited' == visited && next == {})
    ensures found ==> exists x :: x in level && Next(g, x) * user != {}
    ensures !found ==> visited' <= visited + level && Expanded(g, level - visited, next)
  {
    found, err', next, visited' := false, err, {}, visited;
    var todo := level;
    while todo != {}
      invariant Partly(g, level, todo, visited, visited', next)
      invariant Searched(g, start, user, visited', todo + next, err')
      decreases todo
    {
      var x :| x in todo;
      ghost var frontier := todo + next;
      assert x in level && todo == todo - {x} + {x};
      todo := todo - {x};
      if x !in visited' {
        if x !in g {
          ExpandOne(g, start, user, visited', frontier, err', x, {}, true, todo + next);
          PartlyStep(g, level, todo, visited, visited', next, x, {});
          err', visited' := true, visited' + {x};
          assert next + {} == next;
        } else {
          var hit, failed, more := FollowOne(g[x], user);
          if hit {
            var y :| y in FoundIn(g[x]) * user;
            assert Reaches(g, start, x) && y in Next(g, x) && y in user;
            assert x in level && Next(g, x) * user != {};
            return true, err', next, visited';
          }
          ExpandOne(g, start, user, visited', frontier, err', x, more, failed, todo + (next + more));
          PartlyStep(g, level, todo, visited, visited', next, x, more);
          err', next, visited' := err' || failed, next + more, visited' + {x};
        }
      }
    }
    assert visited' - visited == level - visited;
  }

  /** Part of the level was expanded, from the objects visited before on. */
  ghost predicate Partly(g: Graph, level: set<string>, todo: set<string>, visited: set<string>, visited': set<string>,
                         next: set<string>) {
    && todo <= level && visited <= visited' && visited' <= visited + level && level <= todo + visited'
    && Expanded(g, visited' - visited, next)
    && (level <= visited ==> visited' == visited && next == {})
  }

  lemma PartlyStep(g: Graph, level: set<string>, todo: set<string>, visited: set<string>, visited': set<string>,
                   next: set<string>, x: string, more: set<string>)
    requires x in level && x !in visited' && Partly(g, level, todo + {x}, visited, visited', next)
    requires more <= Next(g, x) && (ReadFails(g, x) || more == Next(g, x)) && todo <= level
    ensures Partly(g, level, todo, visited, visited' + {x}, next + more)
  {
    ExpandedMore(g, visited' - visited, next, x, more, visited' + {x} - visited);
  }

  /** A finished search has seen everything reachable. */
  lemma SearchComplete(g: Graph, start: set<string>, user: set<string>, visited: set<string>)
    requires Searched(g, start, user, visited, {}, false)
    ensures !HitsBeyond(g, start, user) && !SomeReadFails(g, start)
  {
    forall x | Reaches(g, start, x) ensures !ReadFails(g, x) {
      var n: nat :| ReachedBy(g, start, x, n);
      ReachedInside(g, start, visited, x, n);
    }
    forall x, y | Reaches(g, start, x) && y in Next(g, x) ensures y !in user {
      var n: nat :| ReachedBy(g, start, x, n);
      ReachedInside(g, start, visited, x, n);
      assert y in user ==> y in Next(g, x) * user;
    }
  }

  /**
   * breadthFirstRecursiveMatch with its consumer: true exactly if an object beyond the first level is
   * related to the user; false without an error only after everything reachable was read. An error is
   * only given if a read failed or some object is about as far away as levels are left, and a related
   * object that can be reached through readable ones within that limit is always found. A search that has
   * something to expand on each of the levels left ends in an error, and if nothing fails to be read, only
   * such a search does.
   */
  method BreadthFirstRecursiveMatch(g: Graph, start: set<string>, user: set<string>, depth: nat, maxDepth: nat)
    returns (a: Answer)
    requires depth < maxDepth
    ensures a.allowed ==> !a.err && HitsBeyond(g, start, user)
    ensures !a.allowed && !a.err ==> !HitsBeyond(g, start, user) && !SomeReadFails(g, start)
    ensures a.err ==> start == {} || SomeReadFails(g, start) || Far(g, start, maxDepth - depth - 3)
    ensures !a.allowed ==> !HitWithin(g, start, user, maxDepth - depth - 2)
    ensures !a.allowed && Deeper(g, start, maxDepth - depth - 1) ==> a.err
    ensures !SomeReadFails(g, start) && !a.allowed ==> (a.err <==> Deeper(g, start, maxDepth - depth - 1))
    ensures !SomeReadFails(g, start) ==> (a.allowed <==> HitWithin(g, start, user, maxDepth - depth - 2))
  {
    var level, visited: set<string>, d, err := start, {}, depth, false;
    ghost var states := [Stage({}, start, false)];
    StartReached(g, start);
    while true
      invariant d == depth + |states| - 1 && d < maxDepth && Searched(g, start, user, visited, level, err)
      invariant IsSearch(g, start, user, states) && states[|states| - 1] == Stage(visited, level, err)
      decreases maxDepth - d
    {
      d := d + 1;
      if d == maxDepth {
        DepthEnds(g, start, user, states, maxDepth - depth - 1);
        return Answer(false, true);
      }
      if level == {} {
        SearchEnds(g, start, user, states, maxDepth - depth - 1);
        return Answer(false, err);
      }
      var found;
      found, err, level, visited := ExpandLevel(g, start, level, visited, user, err);
      if found {
        FoundWithin(g, start, user, states, maxDepth - depth - 2);
        return Answer(true, false);
      }
      states := states + [Stage(visited, level, err)];
    }
  }

  /** What the search knows before it expands a level. */
  datatype Stage = Stage(visited: set<string>, level: set<string>, err: bool)

  /** Expanding the level of `a` leads to `b`. */
  ghost predicate LevelStep(g: Graph, start: set<string>, user: set<string>, a: Stage, b: Stage) {
    && a.level != {} && Searched(g, start, user, b.visited, b.level, b.err)
    && a.visited <= b.visited && a.level <= b.visited && b.visited <= a.visited + a.level
    && Expanded(g, a.level - a.visited, b.level) && (a.level <= a.visited ==> b.level == {})
  }

  /** The levels of a search that has not found a related object. */
  ghost predicate IsSearch(g: Graph, start: set<string>, user: set<string>, states: seq<Stage>) {
    && states != [] && states[0] == Stage({}, start, false)
    && forall i :: 0 < i < |states| ==> LevelStep(g, start, user, states[i - 1], states[i])
  }

  /** The search after `k` levels without a related object. */
  ghost predicate Search(g: Graph, start: set<string>, user: set<string>, s: Stage, k: nat) {
    && Searched(g, start, user, s.visited, s.level, s.err)
    && Deep(g, start, s.visited, s.level, k)
    && (start != {} ==> Distant(g, start, s.level, k))
    && Layered(g, start, s.visited, s.level, k)
    && Ended(g, start, s.level, k)
    && (!SomeReadFails(g, start) ==> Deeper(g, start, k) && (s.level != {} ==> Deeper(g, start, k + 1)))
  }

  lemma SearchStarts(g: Graph, start: set<string>, user: set<string>)
    ensures Search(g, start, user, Stage({}, start, false), 0)
  {
    StartReached(g, start);
    StartDistant(g, start);
  }

  lemma SearchStep(g: Graph, start: set<string>, user: set<string>, a: Stage, b: Stage, k: nat)
    requires Search(g, start, user, a, k) && LevelStep(g, start, user, a, b)
    ensures Search(g, start, user, b, k + 1)
  {
    NextLevel(g, start, a.visited, a.level, b.level, k);
    LayeredStep(g, start, a.visited, a.level, b.visited, b.level, k);
    DeepStep(g, start, user, a.visited, a.level, b.visited, b.level, b.err, k);
    if start != {} { DistantStep(g, start, user, a.visited, a.level, b.level, a.err, k); }
  }

  lemma {:induction false} SearchAt(g: Graph, start: set<string>, user: set<string>, states: seq<Stage>, k: nat)
    requires IsSearch(g, start, user, states) && k < |states|
    ensures Search(g, start, user, states[k], k)
    decreases k
  {
    if k == 0 {
      SearchStarts(g, start, user);
    } else {
      SearchAt(g, start, user, states, k - 1);
      SearchStep(g, start, user, states[k - 1], states[k], k - 1);
    }
  }

  /** What a search shows that expanded all of `m` levels. */
  lemma DepthEnds(g: Graph, start: set<string>, user: set<string>, states: seq<Stage>, m: nat)
    requires IsSearch(g, start, user, states) && |states| == m + 1
    ensures start == {} || SomeReadFails(g, start) || Far(g, start, m - 2)
    ensures !HitWithin(g, start, user, m - 1)
    ensures !SomeReadFails(g, start) ==> Deeper(g, start, m)
  {
    SearchAt(g, start, user, states, m);
    NoHitWithin(g, start, user, states[m].visited, states[m].level, states[m].err, m);
  }

  /** What a search rules out that ran out of objects before `m` levels. */
  lemma SearchEnds(g: Graph, start: set<string>, user: set<string>, states: seq<Stage>, m: nat)
    requires IsSearch(g, start, user, states) && |states| <= m && states[|states| - 1].level == {}
    ensures var err := states[|states| - 1].err;
      && (!err ==> !HitsBeyond(g, start, user) && !SomeReadFails(g, start)) && (err ==> SomeReadFails(g, start))
      && !HitWithin(g, start, user, m - 1) && !Deeper(g, start, m)
  {
    var k := |states| - 1;
    SearchAt(g, start, user, states, k);
    if !states[k].err { SearchComplete(g, start, user, states[k].visited); }
    FinishedNoHit(g, start, user, states[k].visited, states[k].err, m - 1);
    NotDeeper(g, start, k, m);
  }

  lemma FoundWithin(g: Graph, start: set<string>, user: set<string>, states: seq<Stage>, m: int)
    requires IsSearch(g, start, user, states) && |states| <= m + 1
    requires exists x :: x in states[|states| - 1].level && Next(g, x) * user != {}
    ensures !SomeReadFails(g, start) ==> HitWithin(g, start, user, m)
  {
    var k := |states| - 1;
    SearchAt(g, start, user, states, k);
    var x :| x in states[k].level && Next(g, x) * user != {};
    if !SomeReadFails(g, start) {
      ReachedRead(g, start, x, k);
      assert Reaches(g, start, x);
    }
  }

  lemma StartDistant(g: Graph, start: set<string>)
    ensures start != {} ==> Distant(g, start, start, 0)
  {
    StartReached(g, start);
    if start != {} {
      var x :| x in start;
      assert NotCloser(g, start, x, -1) && NotCloser(g, start, x, -2);
    }
  }

  /** What the two channels have delivered, without a common object so far. */
  ghost predicate Loaded(msgs: seq<RightMsg>, i: nat, seen: set<string>) {
    i <= |msgs| && seen == FoundIn(msgs[..i]) && !RightFails(msgs[..i])
  }

  /**
   * recursiveFastPath: the object's parents and the objects related to the user are loaded together, in
   * any interleaving, before the search. The answer is whether a parent at any distance is related to
   * the user.
   *
   * `userFirst(k)` says which channel the k-th receive takes when both have something to deliver.
   */
  method RecursiveFastPath(g: Graph, parents: seq<RightMsg>, related: seq<RightMsg>, depth: nat, maxDepth: nat,
                           userFirst: nat -> bool)
    returns (a: Answer)
    requires depth < maxDepth
    ensures a.allowed ==> !a.err && Hits(g, FoundIn(parents), FoundIn(related))
    ensures !a.allowed && !a.err ==> !Hits(g, FoundIn(parents), FoundIn(related))
    ensures !a.allowed && !a.err ==>
      || parents == [] || (FoundIn(related) == {} && !RightFails(related))
      || (!RightFails(parents) && !RightFails(related) && !SomeReadFails(g, FoundIn(parents)))
    ensures a.err ==>
      || RightFails(parents) || RightFails(related)
      || SomeReadFails(g, FoundIn(parents)) || Far(g, FoundIn(parents), maxDepth - depth - 3)
    ensures !a.allowed && !RightFails(parents) && !RightFails(related) ==>
      FoundIn(parents) * FoundIn(related) == {} &&
        !HitWithin(g, FoundIn(parents), FoundIn(related), maxDepth - depth - 2)
    ensures !a.allowed && !RightFails(parents) && !RightFails(related) && !SomeReadFails(g, FoundIn(parents)) ==>
      (a.err <==> parents != [] && FoundIn(related) != {} && Deeper(g, FoundIn(parents), maxDepth - depth - 1))
  {
    HitsSplit(g, FoundIn(parents), FoundIn(related));
    if parents == [] {
      assert FoundIn(parents) == {};
      NothingReached(g, FoundIn(related));
      NoHitFromNothing(g, FoundIn(related), maxDepth - depth - 2);
      return Answer(false, false);
    }
    if parents[0].LookupFailed? { return Answer(false, true); }
    var fromObject, fromUser: set<string> := {parents[0].obj}, {};
    FoundSnoc(parents, 0);
    var userOpen, objectOpen, i, j, k := true, true, 0, 1, 0;
    while userOpen || objectOpen
      invariant Loaded(related, i, fromUser) && Loaded(parents, j, fromObject) && fromUser * fromObject == {}
      invariant !userOpen ==> i == |related| && fromUser != {}
      invariant !objectOpen ==> j == |parents|
      decreases |related| - i + |parents| - j + (if userOpen then 1 else 0) + (if objectOpen then 1 else 0)
    {
      var takeUser := userOpen && (!objectOpen || userFirst(k));
      k := k + 1;
      if takeUser {
        if i == |related| {
          userOpen := false;
          assert related[..i] == related;
          if fromUser == {} { return Answer(false, false); }
        } else if related[i].LookupFailed? {
          return Answer(false, true);
        } else {
          FoundSnoc(related, i);
          fromUser := fromUser + {related[i].obj};
          if related[i].obj in fromObject {
            PrefixFails(parents, j);
            assert related[i].obj in FoundIn(parents) * FoundIn(related);
            return Answer(true, false);
          }
          i := i + 1;
        }
      } else if j == |parents| {
        objectOpen := false;
      } else if parents[j].LookupFailed? {
        return Answer(false, true);
      } else {
        FoundSnoc(parents, j);
        fromObject := fromObject + {parents[j].obj};
        if parents[j].obj in fromUser {
          PrefixFails(related, i);
          assert parents[j].obj in FoundIn(parents) * FoundIn(related);
          return Answer(true, false);
        }
        j := j + 1;
      }
    }
    assert related[..i] == related && parents[..j] == parents;
    a := BreadthFirstRecursiveMatch(g, fromObject, fromUser, depth, maxDepth);
  }

  lemma NoHitFromNothing(g: Graph, user: set<string>, m: int)
    ensures !HitWithin(g, {}, user, m)
  {
    if HitWithin(g, {}, user, m) {
      var y, j: nat :| j <= m && ReadBy(g, {}, y, j) && !ReadFails(g, y) && Next(g, y) * user != {};
      ReadReached(g, {}, y, j);
      ReachedInside(g, {}, {}, y, j);
    }
  }

  lemma NothingReached(g: Graph, user: set<string>)
    ensures !Hits(g, {}, user)
  {
    if Hits(g, {}, user) {
      var x :| Reaches(g, {}, x) && x in user;
      var n: nat :| ReachedBy(g, {}, x, n);
      ReachedInside(g, {}, {}, x, n);
    }
  }
}
